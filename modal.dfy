/** The block modal of js/modal.js: whether it is open, which block it shows, and its
    navigation, over the blocks and `hasMore` of the page state (`window.state`), which it
    reads but never writes. */
module Modal {
  import opened Common

  /** `updateBlockNavigation`: previous is hidden at index 0, next at the last loaded block
      when nothing more can be loaded. */
  datatype Navigation = Navigation(prevHidden: bool, nextHidden: bool)

  function BlockNavigation(index: int, count: int, hasMore: bool): (n: Navigation)
    ensures n.prevHidden <==> index == 0
    ensures n.nextHidden <==> index == count - 1 && !hasMore
  {
    Navigation(index == 0, index == count - 1 && !hasMore)
  }

  class BlockModal {
    var isModalOpen: bool
    var currentBlockIndex: int
    /** The modal element is shown (its `hidden` class removed). */
    var visible: bool
    /** The block rendered in the modal body. */
    var shown: Option<Block>
    var navigation: Navigation

    /** The module's initial `let` bindings: closed, at index 0, nothing shown. */
    constructor()
      ensures !isModalOpen && currentBlockIndex == 0 && !visible && shown == None
      ensures navigation == Navigation(false, false)
    {
      isModalOpen := false;
      currentBlockIndex := 0;
      visible := false;
      shown := None;
      navigation := Navigation(false, false);
    }

    /** `showBlock(index)`: an index with no block (`blocks[index]` undefined) does nothing. */
    method ShowBlock(index: int, blocks: seq<Block>)
      modifies this
      ensures 0 <= index < |blocks| ==> shown == Some(blocks[index])
      ensures !(0 <= index < |blocks|) ==> shown == old(shown)
      ensures isModalOpen == old(isModalOpen) && currentBlockIndex == old(currentBlockIndex)
      ensures visible == old(visible) && navigation == old(navigation)
    {
      if 0 <= index < |blocks| {
        shown := Some(blocks[index]);
      }
    }

    method UpdateBlockNavigation(blocks: seq<Block>, hasMore: bool)
      modifies this
      ensures navigation == BlockNavigation(currentBlockIndex, |blocks|, hasMore)
      ensures isModalOpen == old(isModalOpen) && currentBlockIndex == old(currentBlockIndex)
      ensures visible == old(visible) && shown == old(shown)
    {
      navigation := BlockNavigation(currentBlockIndex, |blocks|, hasMore);
    }

    /** `openModal(initialIndex)`: the modal counts as open and takes the index even when there
        are no blocks, but only with blocks is it shown and filled. */
    method OpenModal(initialIndex: int, blocks: seq<Block>, hasMore: bool)
      modifies this
      ensures isModalOpen && currentBlockIndex == initialIndex
      ensures blocks == [] ==> visible == old(visible) && shown == old(shown) && navigation == old(navigation)
      ensures blocks != [] ==> visible && navigation == BlockNavigation(initialIndex, |blocks|, hasMore)
      ensures blocks != [] && 0 <= initialIndex < |blocks| ==> shown == Some(blocks[initialIndex])
      ensures blocks != [] && !(0 <= initialIndex < |blocks|) ==> shown == old(shown)
    {
      isModalOpen := true;
      currentBlockIndex := initialIndex;
      if |blocks| == 0 {
        return;
      }
      visible := true;
      ShowBlock(currentBlockIndex, blocks);
      UpdateBlockNavigation(blocks, hasMore);
    }

    method CloseModal()
      modifies this
      ensures !isModalOpen && !visible
      ensures currentBlockIndex == old(currentBlockIndex) && shown == old(shown) && navigation == old(navigation)
    {
      isModalOpen := false;
      visible := false;
    }

    /** `showNextBlock`: steps forward only from before the last loaded block, so an index in
        range stays in range; after the step it asks for more blocks exactly when more exist and
        the new index is within three of the end. */
    method ShowNextBlock(blocks: seq<Block>, hasMore: bool) returns (requestLoadMore: bool)
      modifies this
      ensures old(currentBlockIndex) < |blocks| - 1 ==>
        currentBlockIndex == old(currentBlockIndex) + 1 &&
        shown == (if currentBlockIndex >= 0 then Some(blocks[currentBlockIndex]) else old(shown)) &&
        navigation == BlockNavigation(currentBlockIndex, |blocks|, hasMore) &&
        (requestLoadMore <==> hasMore && currentBlockIndex >= |blocks| - 3)
      ensures old(currentBlockIndex) >= |blocks| - 1 ==>
        currentBlockIndex == old(currentBlockIndex) && shown == old(shown) &&
        navigation == old(navigation) && !requestLoadMore
      ensures 0 <= old(currentBlockIndex) < |blocks| ==> 0 <= currentBlockIndex < |blocks|
      ensures isModalOpen == old(isModalOpen) && visible == old(visible)
    {
      requestLoadMore := false;
      if currentBlockIndex < |blocks| - 1 {
        currentBlockIndex := currentBlockIndex + 1;
        ShowBlock(currentBlockIndex, blocks);
        UpdateBlockNavigation(blocks, hasMore);
        if hasMore && currentBlockIndex >= |blocks| - 3 {
          requestLoadMore := true;
        }
      }
    }

    /** `showPreviousBlock`: steps back only from an index above 0, so it never goes below 0
        on its own. */
    method ShowPreviousBlock(blocks: seq<Block>, hasMore: bool)
      modifies this
      ensures old(currentBlockIndex) > 0 ==>
        currentBlockIndex == old(currentBlockIndex) - 1 &&
        shown == (if currentBlockIndex < |blocks| then Some(blocks[currentBlockIndex]) else old(shown)) &&
        navigation == BlockNavigation(currentBlockIndex, |blocks|, hasMore)
      ensures old(currentBlockIndex) <= 0 ==>
        currentBlockIndex == old(currentBlockIndex) && shown == old(shown) && navigation == old(navigation)
      ensures 0 <= old(currentBlockIndex) < |blocks| ==> 0 <= currentBlockIndex < |blocks|
      ensures isModalOpen == old(isModalOpen) && visible == old(visible)
    {
      if currentBlockIndex > 0 {
        currentBlockIndex := currentBlockIndex - 1;
        ShowBlock(currentBlockIndex, blocks);
        UpdateBlockNavigation(blocks, hasMore);
      }
    }

    /** `handleModalScroll`: while the modal is open, scrolling near the bottom asks for more
        blocks when more exist. The module's own `isLoading` is never set, so it never blocks. */
    method HandleModalScroll(nearBottom: bool, hasMore: bool) returns (requestLoadMore: bool)
      ensures requestLoadMore <==> isModalOpen && nearBottom && hasMore
    {
      requestLoadMore := isModalOpen && nearBottom && hasMore;
    }
  }

  /** The buttons agree with the steps: where previous is hidden no step back is taken, and
      where next is hidden no step forward is taken. At the last loaded block with more to
      come, next stays visible although a step forward is not taken there either. */
  lemma NavigationMatchesSteps(index: int, count: int, hasMore: bool)
    ensures BlockNavigation(index, count, hasMore).prevHidden ==> !(index > 0)
    ensures BlockNavigation(index, count, hasMore).nextHidden ==> !(index < count - 1)
    ensures index == count - 1 && hasMore ==>
      !BlockNavigation(index, count, hasMore).nextHidden && !(index < count - 1)
  {
  }

  /** The characters of the 11-character id group `[a-zA-Z0-9_-]`. */
  predicate IsIdChar(c: char) {
    ('a' <= c <= 'z') || ('A' <= c <= 'Z') || ('0' <= c <= '9') || c == '_' || c == '-'
  }

  /** An id of the expected shape starts at position `j`. */
  predicate IdAt(url: string, j: int) {
    0 <= j && j + 11 <= |url| && forall k | j <= k < j + 11 :: IsIdChar(url[k])
  }

  /** The texts after which the pattern at js/modal.js:319 reads the id. */
  const Markers: seq<string> := ["youtu.be/", "/v/", "/e/", "/embed/", "?v=", "&v="]

  /** The first marker of `markers` that occurs at `i` and is followed by an id. */
  function MarkerIdAt(url: string, i: nat, markers: seq<string>): (r: Option<string>)
    requires i <= |url|
    ensures r.Some? ==> exists j | 0 <= j <= |url| - 11 :: IdAt(url, j) && r.value == url[j..j + 11]
  {
    if markers == [] then None
    else
      var m := markers[0];
      if m <= url[i..] && IdAt(url, i + |m|) then
        assert IdAt(url, i + |m|) && url[i + |m|..i + |m| + 11] == url[i + |m|..i + |m| + 11];
        Some(url[i + |m|..i + |m| + 11])
      else MarkerIdAt(url, i, markers[1..])
  }

  /** The first position from `i` on where a marker is followed by an id. */
  function FindVideoId(url: string, i: nat): (r: Option<string>)
    requires i <= |url|
    ensures r.Some? ==> exists j | 0 <= j <= |url| - 11 :: IdAt(url, j) && r.value == url[j..j + 11]
    decreases |url| - i
  {
    if i == |url| then None
    else
      match MarkerIdAt(url, i, Markers)
      case Some(id) => Some(id)
      case None => FindVideoId(url, i + 1)
  }

  /** `getYouTubeVideoId` of js/modal.js, read as a search for the first marker followed by an
      id. */
  function ModalVideoId(url: string): Option<string> {
    FindVideoId(url, 0)
  }

  /** A found id is exactly 11 characters of `[A-Za-z0-9_-]`, taken from the URL itself. */
  lemma ModalVideoIdShape(url: string)
    ensures ModalVideoId(url).Some? ==>
      |ModalVideoId(url).value| == 11 && (forall k | 0 <= k < 11 :: IsIdChar(ModalVideoId(url).value[k])) &&
      exists j | 0 <= j <= |url| - 11 :: IdAt(url, j) && ModalVideoId(url).value == url[j..j + 11]
  {
    if ModalVideoId(url).Some? {
      var j :| 0 <= j <= |url| - 11 && IdAt(url, j) && ModalVideoId(url).value == url[j..j + 11];
      var id := url[j..j + 11];
      assert forall k | 0 <= k < 11 :: id[k] == url[j + k];
    }
  }
}
