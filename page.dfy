/** The home page of src/app/page.tsx: its React state as the fields of a class, the event
    handlers as methods on it, and the small rules the handlers and the render apply. */
module Page {
  import opened Wrappers
  import opened Interfaces
  import opened Utils
  import opened Paging

  // ---------------------------------------------------------------------------
  // Rules derived from the state
  // ---------------------------------------------------------------------------

  /** The grid has 3 columns in portrait (narrower than tall) and 5 otherwise. */
  function ColumnCount(windowWidth: int, windowHeight: int): (c: int)
    ensures c > 0
    ensures c == 3 <==> windowWidth < windowHeight
    ensures c == 5 <==> windowWidth >= windowHeight
  {
    if windowWidth < windowHeight then 3 else 5
  }

  /** How far down the document must be scrolled before the scroll-to-top button shows. */
  const ScrollThreshold: real := 300.0

  /** What the keydown handler does: focus the card at `index` and suppress the key's
      default action, or ignore the key. */
  datatype KeyOutcome = Ignore | Focus(index: int)

  /** `handleKeyDown`: `currentIndex` is the position of the focused element among the
      focusable cards, -1 when no card has the focus (also when the grid is not rendered or
      nothing is focused). The move is taken only if it lands on one of the cards. */
  function HandleKeyDown(key: string, currentIndex: int, focusableCount: nat, columnCount: int): (r: KeyOutcome)
    requires -1 <= currentIndex < focusableCount
    ensures r.Focus? ==> currentIndex != -1 && 0 <= r.index < focusableCount
    ensures r.Focus? ==> r.index == GetNextIndex(key, currentIndex, columnCount)
    ensures r.Ignore? ==> currentIndex == -1 || !(0 <= GetNextIndex(key, currentIndex, columnCount) < focusableCount)
  {
    if currentIndex == -1 then Ignore
    else
      var nextIndex := GetNextIndex(key, currentIndex, columnCount);
      if nextIndex >= 0 && nextIndex < focusableCount then Focus(nextIndex) else Ignore
  }

  /** A key pressed with no card focused is ignored. */
  lemma KeyDownWithoutFocus(key: string, focusableCount: nat, columnCount: int)
    ensures HandleKeyDown(key, -1, focusableCount, columnCount) == Ignore
  {
  }

  /** A row down that was taken is undone by a row up, and a step right by a step left. */
  lemma KeyDownMovesAreReversible(currentIndex: int, focusableCount: nat, columnCount: int)
    requires 0 <= currentIndex < focusableCount
    ensures var down := HandleKeyDown("ArrowDown", currentIndex, focusableCount, columnCount);
            down.Focus? ==> HandleKeyDown("ArrowUp", down.index, focusableCount, columnCount) == Focus(currentIndex)
    ensures var right := HandleKeyDown("ArrowRight", currentIndex, focusableCount, columnCount);
            right.Focus? ==> HandleKeyDown("ArrowLeft", right.index, focusableCount, columnCount) == Focus(currentIndex)
  {
    NextIndexOppositeArrows(currentIndex, columnCount);
  }

  /** Up from the first row and left from the first card fall outside the grid and are
      ignored rather than clamped or wrapped. */
  lemma KeyDownAtTheEdges(focusableCount: nat, columnCount: int)
    requires focusableCount > 0 && columnCount > 0
    ensures HandleKeyDown("ArrowUp", 0, focusableCount, columnCount) == Ignore
    ensures HandleKeyDown("ArrowLeft", 0, focusableCount, columnCount) == Ignore
    ensures HandleKeyDown("ArrowRight", focusableCount - 1, focusableCount, columnCount) == Ignore
  {
  }

  /** A key that is not an arrow, pressed on a focused card, keeps the focus on that card
      and is consumed too (its default action is suppressed). */
  lemma KeyDownOtherKeyOnCard(key: string, currentIndex: int, focusableCount: nat, columnCount: int)
    requires 0 <= currentIndex < focusableCount && !IsArrowKey(key)
    ensures HandleKeyDown(key, currentIndex, focusableCount, columnCount) == Focus(currentIndex)
  {
    NextIndexOtherKeys(key, currentIndex, columnCount);
  }

  // ---------------------------------------------------------------------------
  // The page's state
  // ---------------------------------------------------------------------------

  class HomePage {
    var title: string
    var content: seq<ContentItem>
    var page: int
    var searchKey: string
    var visible: bool
    var isFinalPage: bool
    var windowWidth: int
    var windowHeight: int
    /** The page number of the `loadPage` call the load effect has started and that has not
        settled yet; loads settle one at a time. */
    var pending: Option<int>

    /** The paging part of the state, as a value. */
    function State(): PagingState
      reads this
    {
      PagingState(page, content, isFinalPage, title, pending)
    }

    ghost predicate Valid()
      reads this
    {
      Invariant(State())
    }

    /** The items the grid shows: the loaded items that match the search key. */
    function FilteredContent(): seq<ContentItem>
      reads this
    {
      GetFilteredItems(content, searchKey)
    }

    function Columns(): int
      reads this
    {
      ColumnCount(windowWidth, windowHeight)
    }

    /** Mounting: the initial state values, then the load effect's first run, which asks
        for page 1. */
    constructor ()
      ensures Valid() && State() == Initial()
      ensures page == 1 && content == [] && !isFinalPage && title == "" && pending == Some(1)
      ensures searchKey == "" && !visible && windowWidth == 0 && windowHeight == 0
      ensures Columns() == 5 && FilteredContent() == []
    {
      title := "";
      content := [];
      page := 1;
      searchKey := "";
      visible := false;
      isFinalPage := false;
      windowWidth := 0;
      windowHeight := 0;
      pending := None;
      new;
      RunLoadEffect(true);
    }

    /** The load effect, run after a render: if `page` or `isFinalPage` changed, and the
        final page has not been reached, `loadPage(page)` starts. */
    method RunLoadEffect(dependenciesChanged: bool)
      modifies this`pending
      ensures pending == if dependenciesChanged && !isFinalPage then Some(page) else old(pending)
    {
      if dependenciesChanged && !isFinalPage {
        pending := Some(page);
      }
    }

    /** The intersection observer's callback: the sentinel came into view. */
    method Trigger()
      requires Valid() && pending == None
      modifies this`page, this`pending
      ensures Valid() && State() == Step(old(State()), Triggered)
      ensures page == old(page) + 1
      ensures pending == if isFinalPage then None else Some(page)
      ensures content == old(content) && title == old(title) && isFinalPage == old(isFinalPage)
    {
      var prevPage, prevFinal := page, isFinalPage;
      page := page + 1;
      RunLoadEffect(page != prevPage || isFinalPage != prevFinal);
    }

    /** The outstanding `loadPage(pageNum)` received its page document. */
    method LoadSucceeded(pageData: PageItem)
      requires Valid() && pending.Some?
      modifies this`title, this`isFinalPage, this`content, this`pending
      ensures Valid() && State() == Step(old(State()), Succeeded(pageData))
      ensures title == pageData.title
      ensures content == old(content) + pageData.contentItems.content
      ensures isFinalPage == (GetTotalPageCount(pageData.totalContentItems, pageData.pageSizeRequested) == Some(old(page)))
      ensures page == old(page) && pending == None
    {
      var pageNum := pending.value;
      var prevPage, prevFinal := page, isFinalPage;
      if pageData.title != title {
        title := pageData.title;
      }
      var totalPageCount := GetTotalPageCount(pageData.totalContentItems, pageData.pageSizeRequested);
      isFinalPage := totalPageCount == Some(pageNum);
      content := content + pageData.contentItems.content;
      pending := None;
      RunLoadEffect(page != prevPage || isFinalPage != prevFinal);
    }

    /** The outstanding `loadPage(pageNum)` failed; the error is only logged. */
    method LoadFailed()
      requires Valid() && pending.Some?
      modifies this`pending
      ensures Valid() && State() == Step(old(State()), Failed)
      ensures pending == None
      ensures page == old(page) && content == old(content) && title == old(title) && isFinalPage == old(isFinalPage)
    {
      pending := None;
    }

    /** The header's search box changed the search key. */
    method SetSearchKey(key: string)
      modifies this`searchKey
      ensures searchKey == key && FilteredContent() == GetFilteredItems(content, key)
    {
      searchKey := key;
    }

    /** The resize handler records the window's new size. */
    method Resize(innerWidth: int, innerHeight: int)
      modifies this`windowWidth, this`windowHeight
      ensures windowWidth == innerWidth && windowHeight == innerHeight
      ensures Columns() == (if innerWidth < innerHeight then 3 else 5)
    {
      windowWidth := innerWidth;
      windowHeight := innerHeight;
    }

    /** `toggleVisible`, the scroll handler: the scroll-to-top button shows exactly when the
        document is scrolled more than 300 pixels down. */
    method ToggleVisible(scrolled: real)
      modifies this`visible
      ensures visible <==> scrolled > ScrollThreshold
    {
      if scrolled > ScrollThreshold {
        visible := true;
      } else if scrolled <= ScrollThreshold {
        visible := false;
      }
    }
  }
}
