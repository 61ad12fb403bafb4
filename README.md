# Arena Channel Viewer — a verified model of its client-side logic

The Arena Channel Viewer is a set of browser pages for Are.na channels. The viewer page
(js/script.js) loads a channel's blocks page by page. It shows them as a grid or as a diary of
dates, and opens a single block in a modal with previous/next navigation. The featured-channels
page (js/channels.js) shows one card per configured channel. A command palette (js/commandk.js)
filters that channel list or takes a pasted channel URL. A `localStorage` cache (js/cache.js)
keeps fetched blocks for 24 hours, bounded to 50 channels.

This project models the state and data handling behind those pages. It proves what each handler
does to that state.

- **Common, Text, Sorting.** These hold the shared values: the optional value, the Are.na block
  and a page-fetch outcome. They also hold the JavaScript string operations the code uses
  (`trim`, `includes`, `split`, `filter`, ASCII case mapping), and `Array.prototype.sort` as an
  insertion sort by a total preorder.
- **Cache.** `BlockCache` is a class over storage, written as `map<string, Entry>`. An entry is a
  parsed `{timestamp, blocks}` record or `Malformed`. The current time is a parameter. The
  cleanup is relational: the order in which `Object.keys` lists the keys is not fixed, so the
  kept entries are stated as the newest ones, not as a particular list.
- **InfiniteScroll.** The `loadMoreBlocks` loader is one atomic step of a `Feed` class. The class
  holds the page counter and the loaded blocks. It also holds the block container as a sequence
  of children: rendered blocks, the scroll trigger and the loading indicator.
- **Viewer.** The module-level `state` of js/script.js is a `Snapshot` value. Each handler is a
  transition function on that value. The `ViewerPage` class runs the handlers as methods.
  In the diary view, `renderDiaryView` replaces the current blocks with the batch it renders.
  The model keeps that behaviour as the code has it, even when the batch is appended by
  `loadMoreContent`. The modal's own fetch in `navigateModal` appends without rendering, so it
  keeps the whole list.
- **Layout.** This module covers the grid order, `groupBlocksByDate` and the diary sections.
- **Modal.** `BlockModal` models the block modal of js/modal.js.
- **CommandK.** `CommandKSearch` models the command palette.
- **YouTube.** This module is the anchored four-pattern id extractor of js/youtube.js.
- **Config.** This module holds the channel configuration data.
- **Channels.** The featured-channels page: the card derivations, the fallback to the
  configuration, and the search box.

## Model

| member | source | states |
|---|---|---|
| Cache.CacheKey | js/cache.js:10-12 | the key is in the cache namespace, and the slug is read back from it after the `arena_cache_` prefix |
| Cache.CacheKeyInjective | js/cache.js:10-12 | two slugs get the same key exactly when they are equal |
| Cache.NewestFirstIsPreorder | js/cache.js:55-59 | the `timeB - timeA` comparator is a total preorder, so the sort is well defined |
| Cache.WithoutCacheKeys | js/cache.js:72-80 | no namespace key is left, every other key is kept with its value, and no key is added |
| Cache.ClearIdempotent | js/cache.js:72-80 | clearing twice gives the same storage as clearing once |
| Cache.EvictionKeepsNewest | js/cache.js:53-66 | dropping everything after the first 50 of a newest-first order leaves exactly 50 namespace entries, and each kept timestamp is >= each removed one |
| Cache.EvictionKeepsPrefix | js/cache.js:62-65 | the namespace keys left after `slice(maxEntries).forEach(removeItem)` are exactly the first 50 of the order |
| Cache.WriteCacheKey | js/cache.js:24 | writing a cache key adds only that key to the namespace |
| Cache.BlockCache.constructor | js/cache.js:9 | the cache works on the storage it is given |
| Cache.BlockCache.ListCacheKeys | js/cache.js:53-54 | the enumerated keys are exactly the namespace keys, each once |
| Cache.BlockCache.CleanupCache | js/cache.js:50-70 | `Cache.Cleaned` of the old and new storage: no key is added and no value changes; keys outside the namespace stay; a malformed entry or at most 50 entries leaves storage unchanged; otherwise exactly 50 remain, none older than a removed one |
| Cache.BlockCache.EvictOldest | js/cache.js:55-66 | sorts newest first and removes all but the first 50, with the same guarantees as the cleanup |
| Cache.BlockCache.RemoveAll | js/cache.js:63-65 | removing the keys one by one takes exactly those keys out of storage |
| Cache.BlockCache.CacheBlocks | js/cache.js:14-28 | the storage the cleanup leaves meets `Cache.Cleaned` (the 50 newest kept, or nothing removed when an entry is malformed or there are at most 50), and the new storage is exactly that, plus `{now, blocks}` under the slug's key unless the write fails; with no eviction it is the old storage plus that write; the namespace then holds at most 51 entries |
| Cache.BlockCache.GetCachedBlocks | js/cache.js:30-48 | a missing or malformed entry gives null and leaves storage alone; an entry older than 24 h gives null and its key is removed; otherwise the stored blocks come back and storage is unchanged |
| Cache.BlockCache.ClearCache | js/cache.js:72-80 | storage becomes the storage without its namespace keys |
| Cache.CacheThenRead | js/cache.js:14-43 | a read at most 24 h after a successful write gives the written blocks back |
| InfiniteScroll.IndexOf | js/infinite-scroll.js:37 | the position of the first matching child |
| InfiniteScroll.RemoveFirst | js/infinite-scroll.js:37-41 | a container without the element is left as it is |
| InfiniteScroll.RemoveFirstMultiset | js/infinite-scroll.js:37-41 | `querySelector(...).remove()` takes out exactly one element when there is one |
| InfiniteScroll.RenderAll | js/infinite-scroll.js:76 | one rendered child per new block, in order, and no trigger or indicator among them |
| InfiniteScroll.AppendPageWellFormed | js/infinite-scroll.js:68-84 | appending a page keeps at most one trigger and no indicator; afterwards a trigger exists exactly when the page was full or one existed before |
| InfiniteScroll.Feed.constructor | js/infinite-scroll.js:50-54 | the fields `loadMoreBlocks` reads, started at page 1 with more to load, not loading, no blocks and an empty container (an assumed initial state) |
| InfiniteScroll.Feed.RemoveInfiniteScrollTrigger | js/infinite-scroll.js:36-42 | the first trigger leaves the container; with at most one before, none is left; the rest of the state is unchanged |
| InfiniteScroll.Feed.AddInfiniteScrollTrigger | js/infinite-scroll.js:15-30 | any old trigger is removed before the new one is appended, so exactly one trigger exists afterwards |
| InfiniteScroll.Feed.LoadMoreBlocks | js/infinite-scroll.js:50-101 | while loading or at the end nothing changes; otherwise the page rises by one whatever the outcome; a non-empty page is appended and sets `hasMore` to "the page was full"; an empty, missing or failed page ends the feed with the blocks unchanged and no trigger; loading ends false with no indicator; at most one trigger always |
| InfiniteScroll.Feed.ReceivePage | js/infinite-scroll.js:68-84 | the old blocks followed by the page, `hasMore` is whether the page was full, and a trigger exactly when `hasMore` holds or one was there |
| InfiniteScroll.Feed.EndOfFeed | js/infinite-scroll.js:85-92 | `hasMore` becomes false, the blocks are unchanged and the trigger is gone |
| InfiniteScroll.EndOfFeedWellFormed | js/infinite-scroll.js:85-99 | removing the trigger and then the indicator leaves the old container without its trigger, still well formed |
| InfiniteScroll.RemoveFirstLast | js/infinite-scroll.js:16-26 | a trigger just appended to a container without one is the one removed |
| Slugs.Href | js/script.js:677 | input starting with `http` is kept; anything else gets `https://` in front |
| Slugs.LastPathSegmentIsLast | js/script.js:679-681 | `undefined` exactly when the path is only slashes; otherwise a non-empty segment with no `/`, after which only empty pieces follow |
| Slugs.LastPathSegment | js/script.js:679-682 | the last element of the non-empty path segments; characterised by `Slugs.LastPathSegmentIsLast` |
| Slugs.ExtractChannelSlug | js/script.js:672-688 | input without `are.na/` and input the URL parser refuses come back unchanged; otherwise the result is the last non-empty segment of the pathname |
| Slugs.ExtractedSlugFalsy | js/script.js:211-212 | for non-empty input the slug is falsy exactly when it is a parsed `are.na/` URL whose path is only slashes |
| Sorting.SortBy | js/script.js:270-272 | the result is a permutation of the input, ordered by the comparator |
| Sorting.Insert | js/script.js:270-272 | inserting into a sorted list gives a sorted permutation |
| Sorting.LexDescendingIsPreorder | js/script.js:289 | `b.localeCompare(a)`, as code-point order, is a total preorder |
| Text.Trim | js/script.js:202 | empty exactly when the input is all ECMAScript white space or line terminators (the Zs space separators included); otherwise with none at either end; `Text.TrimPiece` states that it is the input with only white space cut off its ends |
| Text.TrimPiece | js/script.js:202 | `s.trim()` is a piece `s[i..j]` of the input, with only white space before `i` and after `j` |
| Text.TrimBounds | js/script.js:202 | the bounds of that piece: where the leading white space ends and the trailing begins |
| Text.TrimUnicodeSpaces | js/script.js:202-203 | input made only of Unicode space separators such as U+3000 trims to the empty text, so the handlers refuse it as empty |
| Text.Split | js/channels.js:176 | at least one piece, and no piece holds the separator |
| Text.JoinSplit | js/channels.js:176 | joining the pieces with the separator gives the text back |
| Text.NonEmptyParts | js/script.js:680 | `filter(part => part)` keeps exactly the non-empty pieces |
| Text.NonEmptyPartsAppend | js/script.js:680 | the filter keeps the order of the pieces: filtering `a + b` gives the filtered `a` followed by the filtered `b` |
| Text.LastNonEmptyIsLast | js/script.js:680-682 | `undefined` exactly when every piece is empty; otherwise a non-empty piece followed only by empty ones |
| Text.Lower | js/commandk.js:140-141 | ASCII `toLowerCase` character by character, same length |
| Text.Upper | js/channels.js:132 | ASCII `toUpperCase` character by character, same length |
| Layout.DateKeyIsDatePart | js/script.js:317 | the date key is the prefix of `connected_at` before its first `T` |
| Layout.NewestFirstBlockIsPreorder | js/script.js:270-272 | the `connected_at` comparator is a total preorder |
| Layout.GridOrder | js/script.js:268-283 | the grid shows a permutation of the batch, newest first |
| Layout.GroupBlocksByDate | js/script.js:315-324 | the `reduce` fold; characterised by `Layout.GroupIsFilter` and `Layout.EachBlockInOneGroup` |
| Layout.GroupIsFilter | js/script.js:315-324 | there is a group for exactly the dates of the batch; each group holds that date's blocks in batch order |
| Layout.EachBlockInOneGroup | js/script.js:315-324 | every block is in the group of its own date and in no other |
| Layout.DateOrderIsKeys | js/script.js:289 | `Object.keys` of the groups lists each date of the batch once |
| Layout.Sections | js/script.js:296-310 | one section per listed date, holding that date's group sorted newest first |
| Layout.SortedDatesAreKeys | js/script.js:289 | the sorted dates come once each and are exactly the batch's dates |
| Layout.DiaryLayout | js/script.js:285-311 | the diary sections; characterised by `Layout.DiaryDatesDescending`, `Layout.DiarySectionsNewestFirst` and `Layout.DiaryShowsEveryBlockOnce` |
| Layout.DiaryDatesDescending | js/script.js:289 | the diary lists every date of the batch once, latest first |
| Layout.DiarySectionsNewestFirst | js/script.js:296-310 | each section holds exactly its date's blocks, newest first |
| Layout.DiaryShowsEveryBlockOnce | js/script.js:285-311 | the diary shows every block of the batch exactly once |
| Viewer.NavigationButtons | js/script.js:554-561 | previous is shown exactly when the index is above 0; next is hidden exactly at or past the last block with nothing more to load |
| Viewer.AfterInitialLoad | js/script.js:108-152 | a contents array replaces the blocks and sets `hasMore` to "the page was full"; a failed or thrown fetch shows its message; every other outcome leaves the blocks and `hasMore`; page and channel are untouched |
| Viewer.AfterLoadMore | js/script.js:155-187 | the page rises by one and loading ends false; zero items end the feed with the blocks kept; a non-empty page is appended and sets `hasMore`; a failure keeps both and shows its message |
| Viewer.AfterSearch | js/script.js:201-247 | the `handleSearch` transition; characterised by `Viewer.SearchValidatesThenResets` |
| Viewer.SearchValidatesThenResets | js/script.js:201-247 | empty input and a falsy slug are refused with their message and no reset; a valid slug resets to page 1, that channel, `hasMore` and no blocks, then loads |
| Viewer.AfterModalFetch | js/script.js:503-546 | the page rises by one; a failure or an empty page ends the feed; a non-empty page is appended and sets `hasMore`; the modal index is untouched |
| Viewer.AfterNavigate | js/script.js:499-552 | fetches only when moving forward with more to load and the new index within 3 of the end; then moves exactly when the new index is on a loaded block |
| Viewer.Opened | js/script.js:484-491 | the `openModal` transition: open at the index with the buttons of that index; used by `Viewer.AfterNavigate` and `Viewer.NavigateSteps` |
| Viewer.NavigateFollowsButtons | js/script.js:499-561 | where next is hidden a forward step changes nothing; where previous is hidden a backward step leaves the index |
| Viewer.NavigateSteps | js/script.js:548-551 | without a fetch, a step from a shown block that is not at the end reaches the neighbouring block |
| Viewer.ViewerPage.constructor | js/script.js:2-11 | the initial `state` literal |
| Viewer.ViewerPage.RenderBlocks | js/script.js:259-265 | only the diary view writes the state, making the batch the current blocks |
| Viewer.ViewerPage.LoadInitialContent | js/script.js:108-152 | the new state is the initial-load transition of the old one |
| Viewer.ViewerPage.LoadMoreContent | js/script.js:155-187 | while loading or at the end nothing changes; otherwise the new state is the load-more transition |
| Viewer.ViewerPage.HandleSearch | js/script.js:201-247 | the new state is the search transition |
| Viewer.ViewerPage.ResetAndLoad | js/script.js:218-246 | the reset, then the channel fetch and the initial load |
| Viewer.ViewerPage.SwitchView | js/script.js:691-712 | the new view with page 1, `hasMore` and no blocks, then a fresh initial load |
| Viewer.ViewerPage.OpenModal | js/script.js:484-491 | the modal is open at that index and the buttons are updated |
| Viewer.ViewerPage.CloseModal | js/script.js:493-497 | the modal closes and the index becomes -1 |
| Viewer.ViewerPage.NavigateModal | js/script.js:499-552 | the new state is the navigate transition |
| Modal.BlockNavigation | js/modal.js:291-305 | previous is hidden exactly at index 0; next exactly at the last block with nothing more to load |
| Modal.BlockModal.constructor | js/modal.js:1-3 | closed, at index 0 |
| Modal.BlockModal.ShowBlock | js/modal.js:127-149 | an index with a block shows it; any other index does nothing |
| Modal.BlockModal.UpdateBlockNavigation | js/modal.js:291-305 | the buttons are the navigation of the current index |
| Modal.BlockModal.OpenModal | js/modal.js:21-42 | open and at the initial index even with no blocks; with blocks the modal is shown with that block and its navigation |
| Modal.BlockModal.CloseModal | js/modal.js:44-51 | closed and hidden; the index is kept |
| Modal.BlockModal.ShowNextBlock | js/modal.js:104-117 | steps forward only from before the last block, and then asks for more exactly when more exist and the new index is within 3 of the end; the index stays in range |
| Modal.BlockModal.ShowPreviousBlock | js/modal.js:119-125 | steps back only from an index above 0; the index stays in range |
| Modal.BlockModal.HandleModalScroll | js/modal.js:90-102 | asks for more exactly when the modal is open, scrolled near the bottom and more exist |
| Modal.NavigationMatchesSteps | js/modal.js:104-125 | a hidden button means its step is not taken; at the last block with more to load, next stays shown but does not step |
| Modal.ModalVideoId | js/modal.js:318-322 | a marker search standing in for the regex; only the shape of its result is proved, by `Modal.ModalVideoIdShape` |
| Modal.ModalVideoIdShape | js/modal.js:318-322 | a found id is 11 characters of `[A-Za-z0-9_-]` taken from the URL itself |
| CommandK.FilterChannels | js/commandk.js:139-147 | the `filter`/`map` over the configuration; characterised by `CommandK.FilterChannelsSelects` |
| CommandK.FilterChannelsSelects | js/commandk.js:139-147 | the filtered slugs keep configuration order (a subsequence of it), and a slug is listed exactly when a configured entry whose lower-cased title or slug contains the lower-cased query has it |
| CommandK.ChannelTarget | js/commandk.js:228-231 | `channel.html?channel=` followed by the slug |
| CommandK.RenderItemsSelected | js/commandk.js:169-171 | an item is marked exactly when it comes from the selected position |
| CommandK.RenderItemsOneSelected | js/commandk.js:169-171 | at most one item is marked |
| CommandK.RenderItemsConfigured | js/commandk.js:164-177 | every item shows a configured entry, its title and description |
| CommandK.RenderItemsComplete | js/commandk.js:162-165 | every listed slug with a configured entry gets an item, and others are skipped |
| CommandK.RenderResults | js/commandk.js:155-183 | the rendered list; characterised by `CommandK.RenderResultsMarksSelection` |
| CommandK.RenderResultsMarksSelection | js/commandk.js:155-183 | an empty list gives the empty state; otherwise only the selected one is marked, and exactly the configured slugs are shown |
| CommandK.CommandKSearch.constructor | js/commandk.js:8-35 | nothing selected, no channels, empty input |
| CommandK.CommandKSearch.Render | js/commandk.js:155-183 | the results are those of the current channels and selection |
| CommandK.CommandKSearch.HandleSearch | js/commandk.js:101-153 | an empty query lists all configured slugs; an `are.na/` query lists only its slug and selects it; any other query lists the filtered slugs |
| CommandK.CommandKSearch.ShowDirect | js/commandk.js:116-134 | the single direct result, selected |
| CommandK.CommandKSearch.ShowList | js/commandk.js:107-112 | the channels become the given list and are rendered |
| CommandK.CommandKSearch.SelectNext | js/commandk.js:201-206 | steps forward only from before the last channel, keeping the selection in range |
| CommandK.CommandKSearch.SelectPrevious | js/commandk.js:208-213 | steps back only from above 0, so -1 stays -1 |
| CommandK.CommandKSearch.Close | js/commandk.js:243-247 | closed, nothing selected, input cleared |
| CommandK.CommandKSearch.Open | js/commandk.js:233-241 | open, nothing selected, input cleared, and the featured channels listed |
| CommandK.CommandKSearch.NavigateToChannel | js/commandk.js:228-231 | the location becomes that channel's page |
| CommandK.CommandKSearch.HandleEnter | js/commandk.js:215-226 | goes to the selected channel when the selection is in range; otherwise to the slug of a non-empty query; otherwise nothing |
| YouTube.RunUntilMaximal | js/youtube.js:13 | a `[^?#]+`-style run is a prefix without stop characters that ends at a stop or at the end |
| YouTube.SchemeEnd | js/youtube.js:13-19 | `^https?://`: tries `https://` first, then `http://` |
| YouTube.LastAmpersandVIsLast | js/youtube.js:15 | the greedy `(?:.*&)?` takes the last `&v=` |
| YouTube.WatchValueStartShape | js/youtube.js:15 | the group starts right after a `v=`, at a character other than `&` and `#`, after the last `&v=` |
| YouTube.MatchPatternShape | js/youtube.js:23 | a match is the maximal non-empty run outside the pattern's stops, from where its group begins |
| YouTube.FirstSomeIsFirst | js/youtube.js:22-29 | the loop returns the first match and null when none matches |
| YouTube.VideoId | js/youtube.js:7-29 | `getYouTubeVideoId`; characterised by `YouTube.VideoIdFirstMatchWins`, `YouTube.YoutuBeId`, `YouTube.WatchId` and `YouTube.EmbedOrShortsId` |
| YouTube.VideoIdFirstMatchWins | js/youtube.js:7-29 | null or empty input gives null; otherwise the first of the four patterns to match wins |
| YouTube.NoSchemeNoId | js/youtube.js:13-19 | a URL that does not start with `http://` or `https://` gives null |
| YouTube.VideoIdShape | js/youtube.js:13-19 | every id is non-empty and holds no `#` |
| YouTube.YoutuBeId | js/youtube.js:13 | a `youtu.be/` URL gives the maximal non-empty run after it without `?` or `#`, or null |
| YouTube.EmbedOrShortsId | js/youtube.js:17-19 | `embed/` and `shorts/` URLs, with or without `www.`, give the maximal non-empty run after the path without `?` or `#`, or null |
| YouTube.WatchId | js/youtube.js:15 | a `watch?` URL gives the run after some `v=` without `&` or `#`, and gives one exactly when the `v=` is found |
| Config.ConfigSlugs | js/channels.js:5 | the slugs of the configuration, in configuration order |
| Config.FindBySlug | js/commandk.js:164 | null exactly when no entry has the slug; otherwise the first entry that has it |
| Channels.CardDescription | js/channels.js:119-124 | a truthy description as is; else the metadata description, cut to 100 characters plus `...` when longer; else `No description available`; never empty |
| Channels.FirstCharsOfNonEmpty | js/channels.js:129-130 | `charAt(0)` of each word, joined, gives exactly the first characters of the non-empty words |
| Channels.Initials | js/channels.js:127-132 | at most 2 characters |
| Channels.InitialsOfWords | js/channels.js:127-132 | the upper-cased first characters of the first two non-empty words |
| Channels.Thumbnail | js/channels.js:105-116 | the display URL of the first `Image` block with a display image, and none exactly when no block has one |
| Channels.ViewerTarget | js/channels.js:181 | `index.html?channel=` followed by the slug |
| Channels.CardFor | js/channels.js:100-164 | slug, title and owner of the channel; an image exactly when the thumbnail URL is truthy; `length \|\| 0` blocks; the description of `Channels.CardDescription` and the initials of `Channels.Initials`; a click leads to the viewer for the slug |
| Channels.ValidChannels | js/channels.js:63-64 | `filter(channel => channel !== null)`; characterised by `Channels.ValidChannelsKeepsLoaded` |
| Channels.FeaturedCards | js/channels.js:66-80 | the cards of the loaded channels, or of the configuration when none loaded; characterised by `Channels.FeaturedCardsFallback` |
| Channels.ValidChannelsKeepsLoaded | js/channels.js:49-64 | a channel is kept exactly when it loaded, and none is kept exactly when all failed |
| Channels.ValidChannelsAppend | js/channels.js:63-64 | the filter keeps the response order: filtering `a + b` gives the valid channels of `a` followed by those of `b` |
| Channels.FeaturedCardsFallback | js/channels.js:66-80 | with no channel loaded every configured channel gets a card, in order, owned by `Kent` with its configured description; otherwise one card per loaded channel, in order |
| Channels.SearchSlugAsWritten | js/channels.js:175-178 | the slug as the code computes it, the piece after the last `/`; shown wrong by `Channels.TrailingSlashGivesEmptySlug` |
| Channels.SearchSlug | js/channels.js:175-178 | the corrected slug, the last non-empty piece; characterised by `Channels.SearchSlugNonEmpty` and `Channels.SearchSlugOfUrl` |
| Channels.TrailingSlashGivesEmptySlug | js/channels.js:175-178 | as written, a query that contains `are.na` and ends with `/` gives the empty slug |
| Channels.TrailingSlashExample | js/channels.js:175-181 | `are.na/kent/` leads to `index.html?channel=` with no slug |
| Channels.SearchSlugNonEmpty | js/channels.js:175-178 | the corrected slug of a non-empty query is never empty, and it equals the code's own slug whenever the query does not end with `/` |
| Channels.SearchSlugOfUrl | js/channels.js:175-178 | from a pasted URL the corrected slug has no `/` and is the last non-empty piece between slashes |
| Channels.ChannelsPage.constructor | js/channels.js:2-8 | not loading, and the featured channels are the configured slugs in order |
| Channels.ChannelsPage.LoadFeaturedChannels | js/channels.js:43-82 | with one response per featured slug, in featured order, the grid is exactly the featured cards: the loaded channels in that order, or the configuration when none loaded; loading ends false |
| Channels.ChannelsPage.RenderConfigured | js/channels.js:66-74 | one card per configured channel, in order |
| Channels.ChannelsPage.RenderLoaded | js/channels.js:75-80 | one card per loaded channel, in order |
| Channels.ChannelsPage.HandleSearch | js/channels.js:166-182 | an empty trimmed input does nothing; otherwise the location becomes the viewer for the query's slug |

## Left out

- DOM building, CSS class toggling, `innerHTML` templates, event listeners, `document.title`
  and js/blocks.js are presentation. The model keeps only the state that this code reads back.
  It also keeps the container children that the infinite-scroll trigger logic inspects.
- `fetch`, `response.json()` and the retry helper of js/api.js are not part of this model. Each
  request is an input outcome. A failing `json()` counts as a thrown fetch.
- Each `async` handler is one atomic step. Interleaving of concurrent handlers is not modelled.
  The same goes for the `Promise.all` concurrency of `loadFeaturedChannels`, and for
  `waitForState` polling, `debounce` and `IntersectionObserver`.
- Scroll geometry (`scrollY`, `innerHeight`, `scrollTop`) is the boolean parameter `nearBottom`.
- Date parsing and locale formatting are left out. A block carries its `connected_at` text and
  the instant it denotes as an integer. `localeCompare` is code-point order.
- `new URL(...)` is the parameter `pathnameOf`. Case mapping is ASCII only.
- The console logging and the `catch` branches that only log are left out.
- `localStorage` quota failure is modelled only as `writeFails` on `setItem`, after the cleanup.
  Other storage exceptions are not modelled.
- The viewer and the infinite-scroll loader share one container sequence. Which of the grid
  and diary elements holds it does not affect any stated property.
- `window.loadMoreBlocks` is assumed to exist whenever the modal asks for more.
- In CommandK, `open()` reads the featured list from a parameter. It stands for
  `window.state.featuredChannels` (js/commandk.js:239). None of the modelled files assigns that
  global: script.js and channels.js each keep a module-level `const state`. So the value comes
  from outside the modelled code, and the model assumes it is there. An `undefined` slug is stored
  as the text `undefined`, which is what the templates print.
- The sample images of js/config.js are not modelled. Descriptions, titles, slugs and lengths
  are.
- The `catch` path of `loadFeaturedChannels` is not modelled. That path renders the
  configuration cards after any cards already rendered when `renderChannelCard` throws, for
  instance on a channel without a title.
- Modal.ModalVideoId: a different search from the regex of js/modal.js:319, linked to it only
  through the shape of its result (11 characters of `[A-Za-z0-9_-]` taken from the URL). It looks
  for the first of `youtu.be/`, `/v/`, `/e/`, `/embed/`, `?v=` and `&v=` followed by an id. It
  does not require the `youtube.com/` the regex puts before the last five, so `x/v/abcdefghijk`
  gives an id where the regex gives null. It also has no counterpart of the
  `[^/\n\s]+/\S+/` alternative, so `youtube.com/a/b/ABCDEFGHIJK` gives none where the regex
  gives one.
- Strings are sequences of Unicode scalar values, while JavaScript's `length`, `substring` and
  `charAt` count UTF-16 code units. Outside the Basic Multilingual Plane they differ:
  `Channels.CardDescription` keeps a 60-emoji metadata description whole where the code cuts it
  to 50 emoji plus `...`, and `Channels.FirstChars` takes a whole emoji where `charAt(0)` gives
  a lone surrogate.
- Channels.Initials: `|r| <= 2` holds under the ASCII upper-casing of the model only. JavaScript
  `toUpperCase` can lengthen a character, so `"ß ß"` gives `"SSSS"` there.
- InfiniteScroll.Feed.constructor: js/infinite-scroll.js receives its `state` from a caller that
  is not part of this model, so the initial state of the feed is assumed, not taken from code.
- Layout.GridOrder: the order among blocks with the same `connected_at` is left open. The
  insertion sort of the model is stable, as `Array.prototype.sort` is, but no lemma states it.
- Channels.ChannelsPage.HandleSearch: redirects with the corrected slug `SearchSlug`, not the
  slug the code computes (see Findings). The code's slug is `SearchSlugAsWritten`.

## Findings

| source | as written | input that shows it | evidently intended | confidence | as-written member | corrected member |
|---|---|---|---|---|---|---|
| js/channels.js:175-177 | the slug is the piece after the last `/`, empty pieces included; `Channels.TrailingSlashGivesEmptySlug` shows it | `are.na/kent/` redirects to `index.html?channel=` with an empty slug | the last non-empty piece, as `extractChannelSlug` in js/script.js takes it; `Channels.SearchSlugNonEmpty` proves it | high (not executed) | Channels.SearchSlugAsWritten | Channels.SearchSlug |
