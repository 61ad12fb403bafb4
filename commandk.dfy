/** The command palette of js/commandk.js: a query box over the configured channels, a list of
    results with one selected entry, and navigation to the chosen channel. */
module CommandK {
  import opened Common
  import opened Text
  import opened Slugs
  import opened Config

  /** A configured channel matches when its lower-cased title or slug contains the lower-cased
      query. */
  predicate QueryMatches(c: ChannelConfig, query: string) {
    Contains(Lower(c.title), Lower(query)) || Contains(Lower(c.slug), Lower(query))
  }

  /** `CHANNELS_CONFIG.filter(matches).map(channel => channel.slug)`. */
  function FilterChannels(config: seq<ChannelConfig>, query: string): seq<string> {
    if config == [] then []
    else (if QueryMatches(config[0], query) then [config[0].slug] else []) + FilterChannels(config[1..], query)
  }

  /** `xs` is `ys` with some elements left out, the rest in their order. */
  predicate Subsequence(xs: seq<string>, ys: seq<string>)
    decreases |ys|
  {
    if xs == [] then true
    else if ys == [] then false
    else (xs[0] == ys[0] && Subsequence(xs[1..], ys[1..])) || Subsequence(xs, ys[1..])
  }

  /** The filter keeps configuration order, and a slug is listed exactly when some configured
      channel with that slug matches the query. */
  lemma {:induction false} FilterChannelsSelects(config: seq<ChannelConfig>, query: string)
    ensures Subsequence(FilterChannels(config, query), ConfigSlugs(config))
    ensures forall s :: s in FilterChannels(config, query) <==>
      exists k | 0 <= k < |config| :: config[k].slug == s && QueryMatches(config[k], query)
  {
    if config != [] {
      var rest := FilterChannels(config[1..], query);
      FilterChannelsSelects(config[1..], query);
      assert ConfigSlugs(config) == [config[0].slug] + ConfigSlugs(config[1..]);
      assert ConfigSlugs(config)[1..] == ConfigSlugs(config[1..]);
      if QueryMatches(config[0], query) {
        assert FilterChannels(config, query) == [config[0].slug] + rest;
        assert FilterChannels(config, query)[1..] == rest;
      } else {
        assert FilterChannels(config, query) == rest;
        if rest != [] {
          assert Subsequence(rest, ConfigSlugs(config));
        }
      }
      forall s ensures s in FilterChannels(config, query) <==>
        exists k | 0 <= k < |config| :: config[k].slug == s && QueryMatches(config[k], query)
      {
        if s in rest {
          var k :| 0 <= k < |config[1..]| && config[1..][k].slug == s && QueryMatches(config[1..][k], query);
          assert config[k + 1] == config[1..][k];
        }
        if exists k | 0 <= k < |config| :: config[k].slug == s && QueryMatches(config[k], query) {
          var k :| 0 <= k < |config| && config[k].slug == s && QueryMatches(config[k], query);
          if k > 0 {
            assert config[1..][k - 1] == config[k];
          }
        }
      }
    }
  }

  /** A slug placed in a template literal: `undefined` prints as the text "undefined". */
  function SlugText(slug: Option<string>): string {
    match slug
    case None => "undefined"
    case Some(s) => s
  }

  /** `navigateToChannel(channel)`: the address the palette sends the page to. */
  function ChannelTarget(channel: string): (r: string)
    ensures StartsWith(r, "channel.html?channel=") && r[21..] == channel
  {
    "channel.html?channel=" + channel
  }

  /** One rendered result: the configured title and description of a listed slug. */
  datatype ResultItem = ResultItem(slug: string, title: string, description: string, selected: bool)

  /** What the results pane holds: nothing yet, the empty state, the single "Go to channel"
      entry for a pasted URL, or the rendered list. */
  datatype ResultsView = Blank | EmptyState | DirectResult(slug: string) | Items(items: seq<ResultItem>)

  /** The `forEach` of `renderResults` from position `from` on: slugs missing from the
      configuration are skipped, and an item is marked when its position is `selectedIndex`. */
  function RenderItems(channels: seq<string>, from: nat, selectedIndex: int, config: seq<ChannelConfig>): seq<ResultItem>
    requires from <= |channels|
    decreases |channels| - from
  {
    if from == |channels| then []
    else
      var found := FindBySlug(config, channels[from]);
      (if found.Some? then [ResultItem(channels[from], found.value.title, found.value.description, from == selectedIndex)]
       else [])
      + RenderItems(channels, from + 1, selectedIndex, config)
  }

  /** `renderResults()`. */
  function RenderResults(channels: seq<string>, selectedIndex: int, config: seq<ChannelConfig>): ResultsView {
    if channels == [] then EmptyState else Items(RenderItems(channels, 0, selectedIndex, config))
  }

  /** Every marked entry is the one for position `selectedIndex`, which lies at or after
      `from`. */
  predicate MarkedOnlyAt(items: seq<ResultItem>, channels: seq<string>, from: nat, selectedIndex: int) {
    forall i | 0 <= i < |items| :: items[i].selected ==>
      from <= selectedIndex < |channels| && items[i].slug == channels[selectedIndex]
  }

  predicate AtMostOneMarked(items: seq<ResultItem>) {
    forall i, j | 0 <= i < j < |items| :: !(items[i].selected && items[j].selected)
  }

  predicate AllShowConfig(items: seq<ResultItem>, config: seq<ChannelConfig>) {
    forall i | 0 <= i < |items| :: ShowsConfig(items[i], config)
  }

  /** Some entry is for `slug`, marked or not as `marked` says. */
  predicate HasEntry(items: seq<ResultItem>, slug: string, marked: bool) {
    exists i | 0 <= i < |items| :: items[i].slug == slug && items[i].selected == marked
  }

  /** An entry shows the title and description configured for its slug. */
  predicate ShowsConfig(item: ResultItem, config: seq<ChannelConfig>) {
    var c := FindBySlug(config, item.slug);
    c.Some? && c.value.title == item.title && c.value.description == item.description
  }

  /** A marked entry is the one for position `selectedIndex`. */
  lemma {:induction false} RenderItemsSelected(channels: seq<string>, from: nat, selectedIndex: int, config: seq<ChannelConfig>)
    requires from <= |channels|
    ensures MarkedOnlyAt(RenderItems(channels, from, selectedIndex, config), channels, from, selectedIndex)
    decreases |channels| - from
  {
    if from < |channels| {
      RenderItemsSelected(channels, from + 1, selectedIndex, config);
      var rest := RenderItems(channels, from + 1, selectedIndex, config);
      var items := RenderItems(channels, from, selectedIndex, config);
      var found := FindBySlug(config, channels[from]);
      if found.Some? {
        assert items == [ResultItem(channels[from], found.value.title, found.value.description, from == selectedIndex)] + rest;
        forall i | 0 <= i < |items| && items[i].selected
          ensures from <= selectedIndex < |channels| && items[i].slug == channels[selectedIndex]
        {
          if i > 0 {
            assert items[i] == rest[i - 1];
          }
        }
      } else {
        assert items == rest;
      }
    }
  }

  /** At most one entry is marked. */
  lemma {:induction false} RenderItemsOneSelected(channels: seq<string>, from: nat, selectedIndex: int, config: seq<ChannelConfig>)
    requires from <= |channels|
    ensures AtMostOneMarked(RenderItems(channels, from, selectedIndex, config))
    decreases |channels| - from
  {
    if from < |channels| {
      RenderItemsOneSelected(channels, from + 1, selectedIndex, config);
      RenderItemsSelected(channels, from + 1, selectedIndex, config);
      var rest := RenderItems(channels, from + 1, selectedIndex, config);
      var items := RenderItems(channels, from, selectedIndex, config);
      var found := FindBySlug(config, channels[from]);
      if found.Some? {
        assert items == [ResultItem(channels[from], found.value.title, found.value.description, from == selectedIndex)] + rest;
        assert forall i | 1 <= i < |items| :: items[i] == rest[i - 1];
      } else {
        assert items == rest;
      }
    }
  }

  /** Every entry is a configured channel shown with its configured text. */
  lemma {:induction false} RenderItemsConfigured(channels: seq<string>, from: nat, selectedIndex: int, config: seq<ChannelConfig>)
    requires from <= |channels|
    ensures AllShowConfig(RenderItems(channels, from, selectedIndex, config), config)
    decreases |channels| - from
  {
    if from < |channels| {
      RenderItemsConfigured(channels, from + 1, selectedIndex, config);
      var rest := RenderItems(channels, from + 1, selectedIndex, config);
      var items := RenderItems(channels, from, selectedIndex, config);
      var found := FindBySlug(config, channels[from]);
      if found.Some? {
        assert items == [ResultItem(channels[from], found.value.title, found.value.description, from == selectedIndex)] + rest;
        assert forall i | 1 <= i < |items| :: items[i] == rest[i - 1];
      } else {
        assert items == rest;
      }
    }
  }

  /** Every listed slug that is configured gets an entry, marked exactly when its position is
      the selection; only slugs missing from the configuration are skipped. */
  lemma {:induction false} RenderItemsComplete(channels: seq<string>, from: nat, selectedIndex: int, config: seq<ChannelConfig>)
    requires from <= |channels|
    ensures forall k | from <= k < |channels| :: FindBySlug(config, channels[k]).Some? ==>
      HasEntry(RenderItems(channels, from, selectedIndex, config), channels[k], k == selectedIndex)
    decreases |channels| - from
  {
    if from < |channels| {
      RenderItemsComplete(channels, from + 1, selectedIndex, config);
      var rest := RenderItems(channels, from + 1, selectedIndex, config);
      var items := RenderItems(channels, from, selectedIndex, config);
      var found := FindBySlug(config, channels[from]);
      if found.Some? {
        assert items == [ResultItem(channels[from], found.value.title, found.value.description, from == selectedIndex)] + rest;
        assert HasEntry(items, channels[from], from == selectedIndex) by {
          assert items[0].slug == channels[from];
        }
        forall k | from < k < |channels| && FindBySlug(config, channels[k]).Some?
          ensures HasEntry(items, channels[k], k == selectedIndex)
        {
          var i :| 0 <= i < |rest| && rest[i].slug == channels[k] && rest[i].selected == (k == selectedIndex);
          assert items[i + 1] == rest[i];
        }
      } else {
        assert items == rest;
      }
    }
  }

  /** An empty list renders the empty state; otherwise at most one rendered entry is marked,
      and it is the one at `selectedIndex`. */
  lemma RenderResultsMarksSelection(channels: seq<string>, selectedIndex: int, config: seq<ChannelConfig>)
    ensures RenderResults(channels, selectedIndex, config).EmptyState? <==> channels == []
    ensures RenderResults(channels, selectedIndex, config).Items? ==>
      MarkedOnlyAt(RenderResults(channels, selectedIndex, config).items, channels, 0, selectedIndex) &&
      AtMostOneMarked(RenderResults(channels, selectedIndex, config).items) &&
      AllShowConfig(RenderResults(channels, selectedIndex, config).items, config)
    ensures forall k | 0 <= k < |channels| :: FindBySlug(config, channels[k]).Some? ==>
      RenderResults(channels, selectedIndex, config).Items? &&
      HasEntry(RenderResults(channels, selectedIndex, config).items, channels[k], k == selectedIndex)
  {
    RenderItemsSelected(channels, 0, selectedIndex, config);
    RenderItemsOneSelected(channels, 0, selectedIndex, config);
    RenderItemsConfigured(channels, 0, selectedIndex, config);
    RenderItemsComplete(channels, 0, selectedIndex, config);
  }

  class CommandKSearch {
    var selectedIndex: int
    var channels: seq<string>
    /** The text of the query box. */
    var input: string
    /** The overlay carries the `active` class. */
    var active: bool
    var results: ResultsView
    /** The last address assigned to `window.location.href`. */
    var location: Option<string>
    /** `window.CHANNELS_CONFIG`. */
    const config: seq<ChannelConfig>

    /** The selection is the "none" position -1 or a listed entry. */
    ghost predicate SelectionInRange()
      reads this
    {
      -1 <= selectedIndex < |channels|
    }

    /** `init()`: no selection and no channels. */
    constructor()
      ensures config == ChannelsConfig
      ensures selectedIndex == -1 && channels == [] && input == [] && !active
      ensures results == Blank && location == None
    {
      selectedIndex := -1;
      channels := [];
      input := [];
      active := false;
      results := Blank;
      location := None;
      config := ChannelsConfig;
    }

    /** `isOpen()`. */
    function IsOpen(): bool
      reads this
    {
      active
    }

    method Render()
      modifies this
      ensures results == RenderResults(channels, selectedIndex, config)
      ensures selectedIndex == old(selectedIndex) && channels == old(channels) && input == old(input)
      ensures active == old(active) && location == old(location)
    {
      results := RenderResults(channels, selectedIndex, config);
    }

    /** `handleSearch()` on the trimmed query: an empty query lists every configured channel,
        a pasted Are.na URL becomes the single selected entry, and any other query lists the
        matching configured channels. Only the URL case touches the selection. */
    method HandleSearch(pathnameOf: string -> Option<string>)
      modifies this
      ensures var query := Trim(old(input));
        query == [] ==>
          channels == ConfigSlugs(config) && selectedIndex == old(selectedIndex) &&
          results == RenderResults(channels, selectedIndex, config)
      ensures var query := Trim(old(input));
        query != [] && Contains(query, "are.na/") ==>
          channels == [SlugText(ExtractChannelSlug(query, pathnameOf))] && selectedIndex == 0 &&
          results == DirectResult(channels[0])
      ensures var query := Trim(old(input));
        query != [] && !Contains(query, "are.na/") ==>
          channels == FilterChannels(config, query) && selectedIndex == old(selectedIndex) &&
          results == RenderResults(channels, selectedIndex, config)
      ensures input == old(input) && active == old(active) && location == old(location)
    {
      var query := Trim(input);
      if query == [] {
        ShowList(ConfigSlugs(config));
        return;
      }
      if Contains(query, "are.na/") {
        ShowDirect(SlugText(ExtractChannelSlug(query, pathnameOf)));
        return;
      }
      ShowList(FilterChannels(config, query));
    }

    /** The single "Go to channel" entry for a pasted URL, selected. */
    method ShowDirect(slug: string)
      modifies this
      ensures channels == [slug] && selectedIndex == 0 && results == DirectResult(slug)
      ensures input == old(input) && active == old(active) && location == old(location)
    {
      results := DirectResult(slug);
      channels := [slug];
      selectedIndex := 0;
    }

    /** Lists `slugs` and renders them, keeping the selection. */
    method ShowList(slugs: seq<string>)
      modifies this
      ensures channels == slugs && results == RenderResults(slugs, selectedIndex, config)
      ensures selectedIndex == old(selectedIndex) && input == old(input)
      ensures active == old(active) && location == old(location)
    {
      channels := slugs;
      Render();
    }

    /** `selectNext()`: moves down only while below the last entry. */
    method SelectNext()
      modifies this
      ensures old(selectedIndex) < |channels| - 1 ==>
        selectedIndex == old(selectedIndex) + 1 && results == RenderResults(channels, selectedIndex, config)
      ensures old(selectedIndex) >= |channels| - 1 ==> selectedIndex == old(selectedIndex) && results == old(results)
      ensures old(SelectionInRange()) ==> SelectionInRange()
      ensures channels == old(channels) && input == old(input) && active == old(active) && location == old(location)
    {
      if selectedIndex < |channels| - 1 {
        selectedIndex := selectedIndex + 1;
        Render();
      }
    }

    /** `selectPrevious()`: moves up only from above the first entry, so from -1 it stays. */
    method SelectPrevious()
      modifies this
      ensures old(selectedIndex) > 0 ==>
        selectedIndex == old(selectedIndex) - 1 && results == RenderResults(channels, selectedIndex, config)
      ensures old(selectedIndex) <= 0 ==> selectedIndex == old(selectedIndex) && results == old(results)
      ensures old(SelectionInRange()) ==> SelectionInRange()
      ensures channels == old(channels) && input == old(input) && active == old(active) && location == old(location)
    {
      if selectedIndex > 0 {
        selectedIndex := selectedIndex - 1;
        Render();
      }
    }

    /** `close()`: the overlay goes, the query is cleared and the selection reset. */
    method Close()
      modifies this
      ensures !active && input == [] && selectedIndex == -1
      ensures channels == old(channels) && results == old(results) && location == old(location)
    {
      active := false;
      input := [];
      selectedIndex := -1;
    }

    /** `open()`: like `close`, the query is cleared and the selection reset, and the page's
        featured channels are listed. */
    method Open(featuredChannels: seq<string>)
      modifies this
      ensures active && input == [] && selectedIndex == -1 && channels == featuredChannels
      ensures results == RenderResults(featuredChannels, -1, config)
      ensures location == old(location)
    {
      active := true;
      input := [];
      selectedIndex := -1;
      channels := featuredChannels;
      Render();
    }

    method NavigateToChannel(channel: string)
      modifies this
      ensures location == Some(ChannelTarget(channel))
      ensures !active && input == [] && selectedIndex == -1
      ensures channels == old(channels) && results == old(results)
    {
      location := Some(ChannelTarget(channel));
      Close();
    }

    /** `handleEnter()`: the selected entry when there is one, else the slug extracted from a
        non-empty query, else nothing. */
    method HandleEnter(pathnameOf: string -> Option<string>)
      modifies this
      ensures 0 <= old(selectedIndex) < |old(channels)| ==>
        location == Some(ChannelTarget(old(channels)[old(selectedIndex)])) &&
        !active && input == [] && selectedIndex == -1
      ensures !(0 <= old(selectedIndex) < |old(channels)|) && Trim(old(input)) != [] ==>
        location == Some(ChannelTarget(SlugText(ExtractChannelSlug(Trim(old(input)), pathnameOf)))) &&
        !active && input == [] && selectedIndex == -1
      ensures !(0 <= old(selectedIndex) < |old(channels)|) && Trim(old(input)) == [] ==>
        location == old(location) && active == old(active) && input == old(input) &&
        selectedIndex == old(selectedIndex)
      ensures channels == old(channels) && results == old(results)
    {
      if 0 <= selectedIndex < |channels| {
        NavigateToChannel(channels[selectedIndex]);
      } else {
        var query := Trim(input);
        if query != [] {
          var slug := SlugText(ExtractChannelSlug(query, pathnameOf));
          NavigateToChannel(slug);
        }
      }
    }
  }
}
