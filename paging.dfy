/** The incremental loading of src/app/page.tsx as a state machine over values: the state
    the page keeps for paging, the events that change it, and what runs of events do.
    The class in module Page holds the same state in fields and ties each of its methods
    to `Step` below. */
module Paging {
  import opened Wrappers
  import opened Interfaces
  import opened JsBuiltins
  import opened Utils

  /** The paging state: the React state variables `page`, `content`, `isFinalPage` and
      `title`, and `pending`, the page number of the `loadPage` call that the load effect
      has started and that has not settled yet. Loads settle one at a time. */
  datatype PagingState = PagingState(
    page: int,
    content: seq<ContentItem>,
    isFinalPage: bool,
    title: string,
    pending: Option<int>)

  /** What holds in every reachable state: page numbers start at 1, and the one load that
      can be outstanding is for the current page, issued while the final page was not reached. */
  predicate Invariant(s: PagingState) {
    s.page >= 1 && (s.pending.Some? ==> s.pending.value == s.page && !s.isFinalPage)
  }

  /** The events: the sentinel comes into view, or the outstanding load succeeds with a
      page document, or it fails (network or JSON error). */
  datatype Event = Triggered | Succeeded(pageData: PageItem) | Failed

  /** A load settles only if one is outstanding; the sentinel fires only between loads. */
  predicate Enabled(s: PagingState, e: Event) {
    match e
    case Triggered => s.pending.None?
    case _ => s.pending.Some?
  }

  /** `totalPageCount === pageNum` after loading page `pageNum`. */
  predicate IsFinalPageFor(pageData: PageItem, pageNum: int) {
    GetTotalPageCount(pageData.totalContentItems, pageData.pageSizeRequested) == Some(pageNum)
  }

  /** The load effect: load the current page unless the final page has been reached. */
  function LoadEffect(s: PagingState): PagingState {
    if !s.isFinalPage then s.(pending := Some(s.page)) else s
  }

  /** React runs the effect again after a state change only if one of its dependencies,
      `page` or `isFinalPage`, changed. */
  function AfterRender(before: PagingState, after: PagingState): PagingState {
    if after.page != before.page || after.isFinalPage != before.isFinalPage then LoadEffect(after) else after
  }

  /** The state after mounting: the initial values, then the effect's first run. */
  function Initial(): (s: PagingState)
    ensures Invariant(s)
  {
    LoadEffect(PagingState(1, [], false, "", None))
  }

  /** One event and the render that follows it. */
  function Step(s: PagingState, e: Event): PagingState
    requires Enabled(s, e)
  {
    match e
    case Triggered =>
      // the observer callback: setPage(prev => prev + 1)
      AfterRender(s, s.(page := s.page + 1))
    case Succeeded(pageData) =>
      var pageNum := s.pending.value;
      var titled := if pageData.title != s.title then s.(title := pageData.title) else s;
      AfterRender(s, titled.(
        isFinalPage := IsFinalPageFor(pageData, pageNum),
        content := s.content + pageData.contentItems.content,
        pending := None))
    case Failed =>
      // the error is only logged
      AfterRender(s, s.(pending := None))
  }

  /** A sequence of events each of which is enabled when it arrives. */
  predicate Runnable(s: PagingState, es: seq<Event>)
    decreases |es|
  {
    es == [] || (Enabled(s, es[0]) && Runnable(Step(s, es[0]), es[1..]))
  }

  function Run(s: PagingState, es: seq<Event>): PagingState
    requires Runnable(s, es)
    decreases |es|
  {
    if es == [] then s else Run(Step(s, es[0]), es[1..])
  }

  /** The items that the successful loads among `es` deliver, in order. */
  function LoadedItems(es: seq<Event>): seq<ContentItem>
    decreases |es|
  {
    if es == [] then []
    else (if es[0].Succeeded? then es[0].pageData.contentItems.content else []) + LoadedItems(es[1..])
  }

  /** The number of sentinel triggers among `es`. */
  function Triggers(es: seq<Event>): nat
    decreases |es|
  {
    if es == [] then 0 else (if es[0].Triggered? then 1 else 0) + Triggers(es[1..])
  }

  // ---------------------------------------------------------------------------
  // One event at a time
  // ---------------------------------------------------------------------------

  /** Mounting sets the initial values and asks for page 1 first. */
  lemma InitialLoadsPageOne()
    ensures Initial() == PagingState(1, [], false, "", Some(1))
  {
  }

  /** Every event keeps the invariant. */
  lemma StepKeepsInvariant(s: PagingState, e: Event)
    requires Invariant(s) && Enabled(s, e)
    ensures Invariant(Step(s, e))
  {
  }

  /** A trigger moves `page` on by exactly one, final page or not, and asks for the new page
      exactly when the final page has not been reached. */
  lemma TriggerStep(s: PagingState)
    requires Invariant(s) && s.pending.None?
    ensures var t := Step(s, Triggered);
            t.page == s.page + 1 && t.content == s.content && t.title == s.title &&
            t.isFinalPage == s.isFinalPage && (t.pending.Some? <==> !s.isFinalPage)
  {
  }

  /** A successful load of page `n` appends the page's items, takes over its title, sets the
      final flag to "the page count is n", and starts no further load. */
  lemma SucceededStep(s: PagingState, pageData: PageItem)
    requires Invariant(s) && s.pending.Some?
    ensures var t := Step(s, Succeeded(pageData));
            t.content == s.content + pageData.contentItems.content &&
            |t.content| == |s.content| + |pageData.contentItems.content| &&
            t.title == pageData.title &&
            t.isFinalPage == (GetTotalPageCount(pageData.totalContentItems, pageData.pageSizeRequested) == Some(s.page)) &&
            t.page == s.page && t.pending == None
  {
  }

  /** A failed load changes nothing but the outstanding load, and does not move `page` back. */
  lemma FailedStep(s: PagingState)
    requires Invariant(s) && s.pending.Some?
    ensures Step(s, Failed) == s.(pending := None)
  {
  }

  lemma AppendAssociative<T>(a: seq<T>, b: seq<T>, c: seq<T>)
    ensures (a + b) + c == a + (b + c)
  {
  }

  /** What one event adds to `content`. */
  lemma StepContent(s: PagingState, e: Event)
    requires Enabled(s, e)
    ensures Step(s, e).content == s.content + if e.Succeeded? then e.pageData.contentItems.content else []
  {
    match e
    case Triggered =>
    case Succeeded(pageData) =>
    case Failed =>
  }

  /** A page document that reports zero items in total never marks its page as the last. */
  lemma ZeroTotalIsNeverFinal(s: PagingState, pageData: PageItem)
    requires Invariant(s) && s.pending.Some? && pageData.totalContentItems == "0"
    ensures !Step(s, Succeeded(pageData)).isFinalPage
  {
    TotalPageCountOfZeroTotal(pageData.pageSizeRequested, s.page);
  }

  // ---------------------------------------------------------------------------
  // Runs of events
  // ---------------------------------------------------------------------------

  lemma {:induction false} RunKeepsInvariant(s: PagingState, es: seq<Event>)
    requires Invariant(s) && Runnable(s, es)
    ensures Invariant(Run(s, es))
    decreases |es|
  {
    if es != [] {
      StepKeepsInvariant(s, es[0]);
      RunKeepsInvariant(Step(s, es[0]), es[1..]);
    }
  }

  /** `content` only ever grows, by the items of each successful load in the order the
      loads succeed. With loads settled one at a time, as the model has them, that is page
      order; overlapping loads in the code could append in another order. */
  lemma {:induction false} ContentIsLoadedItems(s: PagingState, es: seq<Event>)
    requires Runnable(s, es)
    ensures Run(s, es).content == s.content + LoadedItems(es)
    decreases |es|
  {
    if es != [] {
      var added := if es[0].Succeeded? then es[0].pageData.contentItems.content else [];
      var rest := LoadedItems(es[1..]);
      StepContent(s, es[0]);
      ContentIsLoadedItems(Step(s, es[0]), es[1..]);
      assert LoadedItems(es) == added + rest;
      AppendAssociative(s.content, added, rest);
    }
  }

  /** `page` counts the triggers; loads never move it. */
  lemma {:induction false} PageCountsTriggers(s: PagingState, es: seq<Event>)
    requires Runnable(s, es)
    ensures Run(s, es).page == s.page + Triggers(es)
    decreases |es|
  {
    if es != [] {
      PageCountsTriggers(Step(s, es[0]), es[1..]);
    }
  }

  /** Once the final page has been reached no load is started again, so the flag, the
      content and the title stay as they are, whatever triggers follow. This rests on loads
      being settled one at a time: in the code a load started before the final page was
      reached can still complete after it. */
  lemma {:induction false} FinalPageIsAbsorbing(s: PagingState, es: seq<Event>)
    requires Invariant(s) && s.isFinalPage && Runnable(s, es)
    ensures var t := Run(s, es);
            t.isFinalPage && t.pending == None && t.content == s.content && t.title == s.title
    decreases |es|
  {
    if es != [] {
      assert es[0] == Triggered;
      FinalPageIsAbsorbing(Step(s, es[0]), es[1..]);
    }
  }

  /** A page whose load failed is never asked for again: every later load is for a later page. */
  lemma {:induction false} FailedPageIsNotRetried(s: PagingState, es: seq<Event>)
    requires Invariant(s) && s.pending.Some? && Runnable(Step(s, Failed), es)
    ensures var t := Run(Step(s, Failed), es);
            t.page >= s.page && (t.pending.Some? ==> t.pending.value > s.pending.value)
  {
    NoLoadAtOrBelow(Step(s, Failed), es, s.page);
  }

  lemma {:induction false} NoLoadAtOrBelow(u: PagingState, es: seq<Event>, n: int)
    requires Invariant(u) && Runnable(u, es)
    requires u.page >= n && (u.pending.Some? ==> u.pending.value > n)
    ensures var t := Run(u, es); t.page >= n && (t.pending.Some? ==> t.pending.value > n)
    decreases |es|
  {
    if es != [] {
      StepKeepsInvariant(u, es[0]);
      NoLoadAtOrBelow(Step(u, es[0]), es[1..], n);
    }
  }

  /** Unfolding `Run` by one event. */
  lemma RunFirst(s: PagingState, es: seq<Event>)
    requires es != [] && Enabled(s, es[0]) && Runnable(Step(s, es[0]), es[1..])
    ensures Runnable(s, es) && Run(s, es) == Run(Step(s, es[0]), es[1..])
  {
  }

  /** The run of 45 items served 20 to a page: the counts give 3 pages (as
      `TotalPageCountExample` shows for "45" and "20"); pages 1 and 2 are not final, page 3
      is, and the content is the 20 + 20 + 5 items in page order. */
  lemma ThreePageRun(title: string, total: string, perPage: string,
                     a: seq<ContentItem>, b: seq<ContentItem>, c: seq<ContentItem>)
    requires GetTotalPageCount(total, perPage) == Some(3)
    requires |a| == 20 && |b| == 20 && |c| == 5
    ensures var es := [
              Succeeded(PageItem(title, ContentItems(a), perPage, total)), Triggered,
              Succeeded(PageItem(title, ContentItems(b), perPage, total)), Triggered,
              Succeeded(PageItem(title, ContentItems(c), perPage, total))];
            Runnable(Initial(), es[..1]) && Run(Initial(), es[..1]) == PagingState(1, a, false, title, None) &&
            Runnable(Initial(), es[..3]) && Run(Initial(), es[..3]) == PagingState(2, a + b, false, title, None) &&
            Runnable(Initial(), es) && Run(Initial(), es) == PagingState(3, a + b + c, true, title, None) &&
            |Run(Initial(), es).content| == 45
  {
    var es := [
      Succeeded(PageItem(title, ContentItems(a), perPage, total)), Triggered,
      Succeeded(PageItem(title, ContentItems(b), perPage, total)), Triggered,
      Succeeded(PageItem(title, ContentItems(c), perPage, total))];
    var s0 := Initial();
    var s1 := Step(s0, es[0]);
    SucceededStep(s0, es[0].pageData);
    assert s1 == PagingState(1, a, false, title, None);
    var s2 := Step(s1, es[1]);
    TriggerStep(s1);
    var s3 := Step(s2, es[2]);
    SucceededStep(s2, es[2].pageData);
    assert s3 == PagingState(2, a + b, false, title, None);
    var s4 := Step(s3, es[3]);
    TriggerStep(s3);
    var s5 := Step(s4, es[4]);
    SucceededStep(s4, es[4].pageData);
    assert s5 == PagingState(3, a + b + c, true, title, None);
    // the whole run
    assert es[4..][1..] == [];
    RunFirst(s4, es[4..]);
    assert es[3..][1..] == es[4..];
    RunFirst(s3, es[3..]);
    assert es[2..][1..] == es[3..];
    RunFirst(s2, es[2..]);
    assert es[1..][1..] == es[2..];
    RunFirst(s1, es[1..]);
    RunFirst(s0, es);
    // the first page
    assert es[..1][1..] == [];
    RunFirst(s0, es[..1]);
    // the first two pages
    var p := es[..3];
    assert p[1..][1..][1..] == [];
    RunFirst(s2, p[1..][1..]);
    RunFirst(s1, p[1..]);
    RunFirst(s0, p);
  }
}
