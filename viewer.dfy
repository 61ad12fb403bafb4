/** The page state of js/script.js (the module-level `state` object and the error banner) and
    the async handlers that change it, each taken as one atomic step whose fetch outcomes are
    inputs. */
module Viewer {
  import opened Common
  import opened Text
  import opened Slugs

  const PerPage: int := 24
  const EmptyInputMessage: string := "Please enter a channel slug or URL"
  const InvalidSlugMessage: string := "Invalid channel URL or slug"
  const ChannelNotFoundMessage: string := "Channel not found"
  const LoadContentFailedMessage: string := "Failed to load content"
  const LoadMoreFailedMessage: string := "Failed to load more content"

  datatype View = Grid | Diary

  /** What `fetchChannel(slug)` yields: the channel, a response whose `ok` is false, or a
      rejected request with its message. */
  datatype ChannelOutcome = ChannelOk | ChannelNotOk | ChannelThrows(message: string)

  /** Whether the modal's previous and next buttons are shown. */
  datatype Buttons = Buttons(hasPrev: bool, hasNext: bool)

  /** Everything the handlers read or write: the fields of `state` that change, the text of
      the error banner (None while hidden), and the modal. */
  datatype Snapshot = Snapshot(
    currentPage: int,
    currentChannel: Option<string>,
    hasMore: bool,
    currentView: View,
    currentBlocks: seq<Block>,
    currentModalIndex: int,
    isLoading: bool,
    error: Option<string>,
    modalOpen: bool,
    modalBlock: Option<Block>,
    buttons: Buttons)

  /** `updateNavigationButtons`: previous while not at the first block, next while not at the
      last loaded block or while more can be loaded. */
  function NavigationButtons(index: int, count: int, hasMore: bool): (b: Buttons)
    ensures b.hasPrev <==> index > 0
    ensures !b.hasNext <==> index >= count - 1 && !hasMore
  {
    Buttons(index > 0, index < count - 1 || hasMore)
  }

  /** `loadInitialContent` on state `s`: a page replaces the blocks and decides `hasMore`; a
      failure shows its message and changes nothing else. */
  function AfterInitialLoad(s: Snapshot, outcome: FetchOutcome): (r: Snapshot)
    ensures outcome.Contents? ==>
      r.currentBlocks == outcome.items && r.hasMore == (|outcome.items| == PerPage) && r.error == s.error
    ensures !outcome.Contents? ==> r.currentBlocks == s.currentBlocks && r.hasMore == s.hasMore
    ensures outcome.NotOk? ==> r.error == Some(LoadContentFailedMessage)
    ensures outcome.Throws? ==> r.error == Some(outcome.message)
    ensures outcome.NoContents? ==> r == s
    ensures r.currentPage == s.currentPage && r.currentChannel == s.currentChannel
    ensures r.isLoading == s.isLoading && r.currentView == s.currentView
  {
    match outcome
    case NotOk => s.(error := Some(LoadContentFailedMessage))
    case Throws(message) => s.(error := Some(message))
    case NoContents => s
    case Contents(items) => s.(currentBlocks := items, hasMore := |items| == PerPage)
  }

  /** The state `loadMoreContent` leaves once past its guard. The page number rises by one
      whatever happens and `isLoading` ends false; an empty page ends the feed; a non-empty
      page decides `hasMore` and is appended, except that in the diary view `renderDiaryView`
      then makes the page alone the current blocks; a failure shows its message and keeps the
      blocks and `hasMore`. */
  function AfterLoadMore(s: Snapshot, outcome: FetchOutcome): (r: Snapshot)
    ensures r.currentPage == s.currentPage + 1 && !r.isLoading
    ensures r.currentChannel == s.currentChannel && r.currentView == s.currentView
    ensures outcome.Contents? && outcome.items == [] ==>
      !r.hasMore && r.currentBlocks == s.currentBlocks && r.error == s.error
    ensures outcome.Contents? && outcome.items != [] ==>
      r.hasMore == (|outcome.items| == PerPage) && r.error == s.error &&
      r.currentBlocks == (if s.currentView == Diary then outcome.items else s.currentBlocks + outcome.items)
    ensures !outcome.Contents? ==> r.currentBlocks == s.currentBlocks && r.hasMore == s.hasMore
    ensures outcome.NotOk? ==> r.error == Some(LoadMoreFailedMessage)
    ensures outcome.Throws? ==> r.error == Some(outcome.message)
    ensures outcome.NoContents? ==> r.error == s.error
  {
    var next := s.(currentPage := s.currentPage + 1, isLoading := false);
    match outcome
    case NotOk => next.(error := Some(LoadMoreFailedMessage))
    case Throws(message) => next.(error := Some(message))
    case NoContents => next
    case Contents(items) =>
      if |items| == 0 then next.(hasMore := false)
      else if s.currentView == Diary then next.(currentBlocks := items, hasMore := |items| == PerPage)
      else next.(currentBlocks := s.currentBlocks + items, hasMore := |items| == PerPage)
  }

  /** The reset `handleSearch` makes for a valid slug: first page, the new channel, more to
      come, no blocks, no error. */
  function SearchReset(s: Snapshot, slug: string): Snapshot {
    s.(currentPage := 1, currentChannel := Some(slug), hasMore := true, currentBlocks := [], error := None)
  }

  /** `handleSearch`. */
  function AfterSearch(s: Snapshot, input: string, pathnameOf: string -> Option<string>,
                       meta: ChannelOutcome, content: FetchOutcome): Snapshot
  {
    var value := Trim(input);
    if value == [] then s.(error := Some(EmptyInputMessage))
    else
      var slug := ExtractChannelSlug(value, pathnameOf);
      if IsFalsy(slug) then s.(error := Some(InvalidSlugMessage))
      else
        AfterChannelFetch(SearchReset(s, slug.value), meta, content)
  }

  /** The `try` block of `handleSearch`: the channel's contents load once the channel itself
      was found; otherwise its error is shown. */
  function AfterChannelFetch(s: Snapshot, meta: ChannelOutcome, content: FetchOutcome): Snapshot {
    match meta
    case ChannelNotOk => s.(error := Some(ChannelNotFoundMessage))
    case ChannelThrows(message) => s.(error := Some(message))
    case ChannelOk => AfterInitialLoad(s, content)
  }

  /** Empty input and a falsy slug are refused with a message and nothing else changes;
      otherwise the state is reset for the slug, and the channel's contents load only when the
      channel itself was found. */
  lemma SearchValidatesThenResets(s: Snapshot, input: string, pathnameOf: string -> Option<string>,
                                  meta: ChannelOutcome, content: FetchOutcome)
    ensures var r := AfterSearch(s, input, pathnameOf, meta, content);
      var slug := ExtractChannelSlug(Trim(input), pathnameOf);
      (Trim(input) == [] ==> r == s.(error := Some(EmptyInputMessage))) &&
      (Trim(input) != [] && IsFalsy(slug) ==> r == s.(error := Some(InvalidSlugMessage))) &&
      (Trim(input) != [] && !IsFalsy(slug) ==>
        r.currentPage == 1 && r.currentChannel == slug &&
        r.currentView == s.currentView && r.isLoading == s.isLoading &&
        (meta.ChannelOk? ==> r == AfterInitialLoad(SearchReset(s, slug.value), content)) &&
        (!meta.ChannelOk? ==>
          (r.hasMore && r.currentBlocks == [] &&
           r.error == Some(if meta.ChannelNotOk? then ChannelNotFoundMessage else meta.message))))
  {
  }

  /** `navigateModal(direction)` fetches the next page exactly when moving forward, more can be
      loaded, and the target is within three of the end of the loaded blocks. */
  predicate FetchesOnNavigate(s: Snapshot, direction: int) {
    direction > 0 && s.hasMore && s.currentModalIndex + direction >= |s.currentBlocks| - 3
  }

  /** The fetch of `navigateModal`: the page number rises, a failure or an empty page ends the
      feed, a missing `contents` changes nothing, and a non-empty page is appended. */
  function AfterModalFetch(s: Snapshot, outcome: FetchOutcome): (r: Snapshot)
    ensures r.currentPage == s.currentPage + 1 && !r.isLoading
    ensures outcome.NotOk? || outcome.Throws? || (outcome.Contents? && outcome.items == []) ==>
      !r.hasMore && r.currentBlocks == s.currentBlocks
    ensures outcome.NoContents? ==> r.hasMore == s.hasMore && r.currentBlocks == s.currentBlocks
    ensures outcome.Contents? && outcome.items != [] ==>
      r.currentBlocks == s.currentBlocks + outcome.items && r.hasMore == (|outcome.items| == PerPage)
    ensures r.error == s.error && r.currentModalIndex == s.currentModalIndex && r.modalOpen == s.modalOpen
  {
    var next := s.(currentPage := s.currentPage + 1, isLoading := false);
    match outcome
    case NotOk => next.(hasMore := false)
    case Throws(_) => next.(hasMore := false)
    case NoContents => next
    case Contents(items) =>
      if |items| == 0 then next.(hasMore := false)
      else next.(currentBlocks := s.currentBlocks + items, hasMore := |items| == PerPage)
  }

  /** `openModal(block, index)`. */
  function Opened(s: Snapshot, block: Block, index: int): Snapshot {
    s.(currentModalIndex := index, modalOpen := true, modalBlock := Some(block),
       buttons := NavigationButtons(index, |s.currentBlocks|, s.hasMore))
  }

  /** `navigateModal(direction)`: the optional fetch, then a move to the new index exactly when
      it names a loaded block. */
  function AfterNavigate(s: Snapshot, direction: int, outcome: FetchOutcome): (r: Snapshot)
    ensures var t := if FetchesOnNavigate(s, direction) then AfterModalFetch(s, outcome) else s;
      var target := s.currentModalIndex + direction;
      r.currentBlocks == t.currentBlocks && r.hasMore == t.hasMore && r.currentPage == t.currentPage &&
      (0 <= target < |t.currentBlocks| ==>
        r.currentModalIndex == target && r.modalOpen && r.modalBlock == Some(t.currentBlocks[target]) &&
        r.buttons == NavigationButtons(target, |t.currentBlocks|, t.hasMore)) &&
      (!(0 <= target < |t.currentBlocks|) ==> r == t)
  {
    var t := if FetchesOnNavigate(s, direction) then AfterModalFetch(s, outcome) else s;
    var target := s.currentModalIndex + direction;
    if 0 <= target < |t.currentBlocks| then Opened(t, t.currentBlocks[target], target) else t
  }

  /** The arrows follow the buttons: where next is hidden a step forward changes nothing, and
      where previous is hidden a step back changes nothing. */
  lemma NavigateFollowsButtons(s: Snapshot, outcome: FetchOutcome)
    ensures !NavigationButtons(s.currentModalIndex, |s.currentBlocks|, s.hasMore).hasNext ==>
      AfterNavigate(s, 1, outcome) == s
    ensures !NavigationButtons(s.currentModalIndex, |s.currentBlocks|, s.hasMore).hasPrev ==>
      AfterNavigate(s, -1, outcome) == s
  {
  }

  /** Without a fetch, a step forward from a shown block that is not the last one reaches the
      next block, and a step back from one that is not the first reaches the previous one. */
  lemma NavigateSteps(s: Snapshot, outcome: FetchOutcome)
    requires 0 <= s.currentModalIndex < |s.currentBlocks|
    ensures s.currentModalIndex < |s.currentBlocks| - 1 ==>
      AfterNavigate(s, 1, outcome).currentModalIndex == s.currentModalIndex + 1
    ensures s.currentModalIndex > 0 ==>
      AfterNavigate(s, -1, outcome) == Opened(s, s.currentBlocks[s.currentModalIndex - 1], s.currentModalIndex - 1)
  {
  }

  class ViewerPage {
    var currentPage: int
    var currentChannel: Option<string>
    var hasMore: bool
    var currentView: View
    var currentBlocks: seq<Block>
    var currentModalIndex: int
    var isLoading: bool
    var error: Option<string>
    var modalOpen: bool
    var modalBlock: Option<Block>
    var buttons: Buttons

    function State(): Snapshot
      reads this
    {
      Snapshot(currentPage, currentChannel, hasMore, currentView, currentBlocks,
               currentModalIndex, isLoading, error, modalOpen, modalBlock, buttons)
    }

    /** The initial `state` literal. */
    constructor()
      ensures State() == Snapshot(1, None, true, Grid, [], -1, false, None, false, None, Buttons(false, true))
    {
      currentPage := 1;
      currentChannel := None;
      hasMore := true;
      currentView := Grid;
      currentBlocks := [];
      currentModalIndex := -1;
      isLoading := false;
      error := None;
      modalOpen := false;
      modalBlock := None;
      buttons := Buttons(false, true);
    }

    /** `renderBlocks`: only the diary view writes the state, making the batch the current
        blocks. */
    method RenderBlocks(batch: seq<Block>)
      modifies this
      ensures State() == if old(currentView) == Diary then old(State()).(currentBlocks := batch) else old(State())
    {
      if currentView == Diary {
        currentBlocks := batch;
      }
    }

    method LoadInitialContent(outcome: FetchOutcome)
      modifies this
      ensures State() == AfterInitialLoad(old(State()), outcome)
    {
      match outcome
      case NotOk =>
        error := Some(LoadContentFailedMessage);
      case Throws(message) =>
        error := Some(message);
      case NoContents =>
      case Contents(items) =>
        currentBlocks := items;
        hasMore := |items| == PerPage;
        RenderBlocks(items);
    }

    method LoadMoreContent(outcome: FetchOutcome)
      modifies this
      ensures old(isLoading) || !old(hasMore) ==> State() == old(State())
      ensures !old(isLoading) && old(hasMore) ==> State() == AfterLoadMore(old(State()), outcome)
    {
      if isLoading || !hasMore {
        return;
      }
      isLoading := true;
      currentPage := currentPage + 1;
      match outcome {
        case NotOk =>
          error := Some(LoadMoreFailedMessage);
        case Throws(message) =>
          error := Some(message);
        case NoContents =>
        case Contents(items) =>
          if |items| == 0 {
            hasMore := false;
          } else {
            currentBlocks := currentBlocks + items;
            hasMore := |items| == PerPage;
            RenderBlocks(items);
          }
      }
      isLoading := false;
    }

    /** `handleSearch` with the text of the input box; `pathnameOf` stands for the URL parser
        and `meta` for the outcome of `fetchChannel`. */
    method HandleSearch(input: string, pathnameOf: string -> Option<string>,
                        meta: ChannelOutcome, content: FetchOutcome)
      modifies this
      ensures State() == AfterSearch(old(State()), input, pathnameOf, meta, content)
    {
      var value := Trim(input);
      if value == [] {
        error := Some(EmptyInputMessage);
        return;
      }
      var slug := ExtractChannelSlug(value, pathnameOf);
      if IsFalsy(slug) {
        error := Some(InvalidSlugMessage);
        return;
      }
      ResetAndLoad(slug.value, meta, content);
    }

    /** The reset of `handleSearch` for a valid slug, and its `try` block. */
    method ResetAndLoad(slug: string, meta: ChannelOutcome, content: FetchOutcome)
      modifies this
      ensures State() == AfterChannelFetch(SearchReset(old(State()), slug), meta, content)
    {
      currentPage := 1;
      currentChannel := Some(slug);
      hasMore := true;
      currentBlocks := [];
      error := None;
      match meta
      case ChannelNotOk =>
        error := Some(ChannelNotFoundMessage);
      case ChannelThrows(message) =>
        error := Some(message);
      case ChannelOk =>
        LoadInitialContent(content);
    }

    /** `switchView`: the same page, `hasMore` and blocks reset as a search, then a fresh load. */
    method SwitchView(view: View, outcome: FetchOutcome)
      modifies this
      ensures State() == AfterInitialLoad(old(State()).(currentView := view, currentPage := 1, hasMore := true, currentBlocks := []), outcome)
    {
      currentView := view;
      currentPage := 1;
      hasMore := true;
      currentBlocks := [];
      LoadInitialContent(outcome);
    }

    method OpenModal(block: Block, index: int)
      modifies this
      ensures State() == Opened(old(State()), block, index)
    {
      currentModalIndex := index;
      modalBlock := Some(block);
      modalOpen := true;
      buttons := NavigationButtons(currentModalIndex, |currentBlocks|, hasMore);
    }

    method CloseModal()
      modifies this
      ensures State() == old(State()).(modalOpen := false, currentModalIndex := -1)
    {
      modalOpen := false;
      currentModalIndex := -1;
    }

    method NavigateModal(direction: int, outcome: FetchOutcome)
      modifies this
      ensures State() == AfterNavigate(old(State()), direction, outcome)
    {
      var newIndex := currentModalIndex + direction;
      if direction > 0 && hasMore && newIndex >= |currentBlocks| - 3 {
        isLoading := true;
        currentPage := currentPage + 1;
        match outcome {
          case NotOk =>
            hasMore := false;
          case Throws(_) =>
            hasMore := false;
          case NoContents =>
          case Contents(items) =>
            if |items| == 0 {
              hasMore := false;
            } else {
              currentBlocks := currentBlocks + items;
              hasMore := |items| == PerPage;
            }
        }
        isLoading := false;
      }
      if 0 <= newIndex < |currentBlocks| {
        OpenModal(currentBlocks[newIndex], newIndex);
      }
    }
  }
}
