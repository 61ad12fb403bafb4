/** The featured-channels page of js/channels.js: one card per channel that loaded (or per
    configured channel when none did), the text each card derives from its channel, and the
    search box that sends the browser to the viewer. */
module Channels {
  import opened Common
  import opened Text
  import opened Config

  /** A channel as `renderChannelCard` reads it: from the API, or a configured entry spread
      with the configured owner. Strings that may be missing are options; `contents` is empty
      when missing. */
  datatype Channel = Channel(
    slug: string,
    title: string,
    description: Option<string>,
    metadataDescription: Option<string>,
    length: Option<int>,
    contents: seq<Block>,
    ownerName: string)

  /** `{...channel, user: {full_name: USER_CONFIG.full_name}}` for a configured entry. */
  function FromConfig(c: ChannelConfig): Channel {
    Channel(c.slug, c.title, Some(c.description), None, c.length, [], UserFullName)
  }

  /** JavaScript truthiness of a string that may be missing. */
  predicate Truthy(s: Option<string>) {
    s.Some? && s.value != []
  }

  /** The card text: the channel's own description, else the metadata description cut to 100
      characters plus `...` when longer, else a fixed text. It is never empty, and a metadata
      description never yields more than 103 characters. */
  function CardDescription(ch: Channel): (r: string)
    ensures r != []
    ensures Truthy(ch.description) ==> r == ch.description.value
    ensures !Truthy(ch.description) && Truthy(ch.metadataDescription) ==>
      var m := ch.metadataDescription.value;
      |r| <= 103 && (if |m| > 100 then |r| == 103 && r[..100] == m[..100] && r[100..] == "..." else r == m)
    ensures !Truthy(ch.description) && !Truthy(ch.metadataDescription) ==> r == "No description available"
  {
    if Truthy(ch.description) then ch.description.value
    else if Truthy(ch.metadataDescription) then
      var m := ch.metadataDescription.value;
      if |m| > 100 then m[..100] + "..." else m
    else "No description available"
  }

  /** `words.map(word => word.charAt(0)).join('')`: `charAt(0)` of an empty word is empty. */
  function FirstChars(words: seq<string>): string {
    if words == [] then [] else words[0][..if words[0] == [] then 0 else 1] + FirstChars(words[1..])
  }

  /** The first characters are exactly those of the non-empty words, in order. */
  lemma {:induction false} FirstCharsOfNonEmpty(words: seq<string>)
    ensures |FirstChars(words)| == |NonEmptyParts(words)|
    ensures forall k | 0 <= k < |FirstChars(words)| :: NonEmptyParts(words)[k] != [] && FirstChars(words)[k] == NonEmptyParts(words)[k][0]
  {
    if words != [] {
      FirstCharsOfNonEmpty(words[1..]);
      if words[0] != [] {
        assert FirstChars(words) == [words[0][0]] + FirstChars(words[1..]);
        assert NonEmptyParts(words) == [words[0]] + NonEmptyParts(words[1..]);
      } else {
        assert FirstChars(words) == FirstChars(words[1..]);
        assert NonEmptyParts(words) == NonEmptyParts(words[1..]);
      }
    }
  }

  /** `title.split(' ').map(w => w.charAt(0)).join('').substring(0, 2).toUpperCase()`. */
  function Initials(title: string): (r: string)
    ensures |r| <= 2
  {
    var first := FirstChars(Split(title, ' '));
    Upper(first[..if |first| < 2 then |first| else 2])
  }

  /** The initials are the upper-cased first characters of the first two non-empty words (or of
      the one there is). */
  lemma InitialsOfWords(title: string)
    ensures var words := NonEmptyParts(Split(title, ' '));
      |Initials(title)| == (if |words| < 2 then |words| else 2) &&
      forall k | 0 <= k < |Initials(title)| :: words[k] != [] && Initials(title)[k] == UpperChar(words[k][0])
  {
    FirstCharsOfNonEmpty(Split(title, ' '));
  }

  /** The block `find` looks for: an `Image` block with a display image. */
  predicate HasDisplayImage(b: Block) {
    b.kind == Image && b.image.Some? && b.image.value.display.Some?
  }

  /** The display URL of the first block with a display image, if any. */
  function Thumbnail(contents: seq<Block>): (r: Option<string>)
    ensures r.None? <==> forall i | 0 <= i < |contents| :: !HasDisplayImage(contents[i])
    ensures r.Some? ==> exists i | 0 <= i < |contents| ::
      HasDisplayImage(contents[i]) && r == contents[i].image.value.display &&
      forall j | 0 <= j < i :: !HasDisplayImage(contents[j])
  {
    if contents == [] then None
    else if HasDisplayImage(contents[0]) then contents[0].image.value.display
    else
      var r := Thumbnail(contents[1..]);
      assert forall i | 1 <= i < |contents| :: contents[i] == contents[1..][i - 1];
      if r.Some? then
        var i :| 0 <= i < |contents[1..]| && HasDisplayImage(contents[1..][i]) &&
          r == contents[1..][i].image.value.display && forall j | 0 <= j < i :: !HasDisplayImage(contents[1..][j]);
        assert contents[i + 1] == contents[1..][i];
        r
      else r
  }

  /** `index.html?channel=` followed by the slug: where a card or the search box leads. */
  function ViewerTarget(slug: string): (r: string)
    ensures StartsWith(r, "index.html?channel=") && r[19..] == slug
  {
    "index.html?channel=" + slug
  }

  /** What one card shows: the image when the thumbnail URL is truthy, otherwise the initials
      placeholder; `channel.length || 0` blocks; the owner; and where a click leads. */
  datatype Card = Card(
    slug: string,
    title: string,
    image: Option<string>,
    initials: string,
    description: string,
    count: int,
    ownerName: string,
    target: string)

  function CardFor(ch: Channel): (card: Card)
    ensures card.slug == ch.slug && card.title == ch.title && card.ownerName == ch.ownerName
    ensures card.target == ViewerTarget(ch.slug)
    ensures card.image.Some? <==> Truthy(Thumbnail(ch.contents))
    ensures card.image.Some? ==> card.image == Thumbnail(ch.contents)
    ensures card.count == (if ch.length.Some? then ch.length.value else 0)
    ensures card.description == CardDescription(ch) && card.initials == Initials(ch.title)
  {
    var thumbnail := Thumbnail(ch.contents);
    Card(ch.slug, ch.title, if Truthy(thumbnail) then thumbnail else None, Initials(ch.title),
      CardDescription(ch), if ch.length.Some? then ch.length.value else 0, ch.ownerName,
      ViewerTarget(ch.slug))
  }

  /** `channels.filter(channel => channel !== null)`: the channels that loaded, in order. */
  function ValidChannels(responses: seq<Option<Channel>>): seq<Channel> {
    if responses == [] then []
    else (if responses[0].Some? then [responses[0].value] else []) + ValidChannels(responses[1..])
  }

  /** A loaded channel is kept and a failed one dropped; none is kept exactly when all failed.
      `ValidChannelsAppend` states that the order is kept. */
  lemma {:induction false} ValidChannelsKeepsLoaded(responses: seq<Option<Channel>>)
    ensures forall ch :: ch in ValidChannels(responses) <==> Some(ch) in responses
    ensures ValidChannels(responses) == [] <==> forall k | 0 <= k < |responses| :: responses[k].None?
    ensures |ValidChannels(responses)| <= |responses|
  {
    if responses != [] {
      ValidChannelsKeepsLoaded(responses[1..]);
      assert responses == [responses[0]] + responses[1..];
      assert forall k | 1 <= k < |responses| :: responses[k] == responses[1..][k - 1];
      if responses[0].Some? {
        assert ValidChannels(responses) == [responses[0].value] + ValidChannels(responses[1..]);
      } else {
        assert ValidChannels(responses) == ValidChannels(responses[1..]);
      }
    }
  }

  /** The filter keeps the response order: filtering two runs of responses one after the other
      gives the valid channels of the first run followed by those of the second. */
  lemma {:induction false} ValidChannelsAppend(a: seq<Option<Channel>>, b: seq<Option<Channel>>)
    ensures ValidChannels(a + b) == ValidChannels(a) + ValidChannels(b)
  {
    if a != [] {
      ValidChannelsAppend(a[1..], b);
      assert (a + b)[1..] == a[1..] + b;
    } else {
      assert a + b == b;
    }
  }

  /** The cards `loadFeaturedChannels` renders: the loaded channels, or the whole configuration
      with the configured owner when none loaded. */
  function FeaturedCards(config: seq<ChannelConfig>, responses: seq<Option<Channel>>): seq<Card> {
    var valid := ValidChannels(responses);
    if valid == [] then seq(|config|, k requires 0 <= k < |config| => CardFor(FromConfig(config[k])))
    else seq(|valid|, k requires 0 <= k < |valid| => CardFor(valid[k]))
  }

  /** With no channel loaded, every configured channel gets a card in configuration order,
      owned by the configured user and showing its configured description; otherwise each
      loaded channel gets one, in order. */
  lemma FeaturedCardsFallback(config: seq<ChannelConfig>, responses: seq<Option<Channel>>)
    ensures (forall k | 0 <= k < |responses| :: responses[k].None?) ==>
      |FeaturedCards(config, responses)| == |config| &&
      forall k | 0 <= k < |config| ::
        FeaturedCards(config, responses)[k].slug == config[k].slug &&
        FeaturedCards(config, responses)[k].ownerName == UserFullName &&
        (config[k].description != [] ==> FeaturedCards(config, responses)[k].description == config[k].description)
    ensures (exists k | 0 <= k < |responses| :: responses[k].Some?) ==>
      |FeaturedCards(config, responses)| == |ValidChannels(responses)| &&
      forall k | 0 <= k < |ValidChannels(responses)| ::
        FeaturedCards(config, responses)[k] == CardFor(ValidChannels(responses)[k])
  {
    ValidChannelsKeepsLoaded(responses);
  }

  /** `handleSearch` as the code is written: input containing `are.na` becomes the piece after
      the last `/`, which is empty when the input ends with `/`. */
  function SearchSlugAsWritten(query: string): string {
    if Contains(query, "are.na") then
      var parts := Split(query, '/');
      parts[|parts| - 1]
    else query
  }

  /** A pasted channel URL with a trailing slash gives the empty slug. */
  lemma TrailingSlashGivesEmptySlug(query: string)
    requires Contains(query, "are.na") && query != [] && query[|query| - 1] == '/'
    ensures SearchSlugAsWritten(query) == []
  {
    var body := query[..|query| - 1];
    assert query == body + ['/'];
    SplitTrailing(body, '/');
  }

  /** The concrete case: `are.na/kent/` leads to `index.html?channel=`. */
  lemma TrailingSlashExample()
    ensures SearchSlugAsWritten("are.na/kent/") == []
    ensures ViewerTarget(SearchSlugAsWritten("are.na/kent/")) == "index.html?channel="
  {
    assert "are.na" <= "are.na/kent/";
    TrailingSlashGivesEmptySlug("are.na/kent/");
  }

  /** The slug the search box evidently means: the last non-empty piece between slashes, as
      `extractChannelSlug` of the viewer takes it. A query that holds `are.na` always has one. */
  function SearchSlug(query: string): string {
    if Contains(query, "are.na") then
      match LastNonEmpty(Split(query, '/'))
      case Some(s) => s
      case None => query
    else query
  }

  /** The corrected slug of a non-empty query is never empty, and it agrees with the code as
      written on every query that does not end with `/`. */
  lemma SearchSlugNonEmpty(query: string)
    requires query != []
    ensures SearchSlug(query) != []
    ensures query[|query| - 1] != '/' ==> SearchSlug(query) == SearchSlugAsWritten(query)
  {
    if Contains(query, "are.na") {
      SearchSlugOfUrl(query);
      if query[|query| - 1] != '/' {
        LastPieceOfSplit(query, '/');
      }
    }
  }

  /** From a pasted URL the corrected slug is the last non-empty piece between slashes: it holds
      no `/`, and every piece after it is empty. */
  lemma SearchSlugOfUrl(query: string)
    requires Contains(query, "are.na")
    ensures var parts := Split(query, '/');
      '/' !in SearchSlug(query) && SearchSlug(query) != [] &&
      exists k | 0 <= k < |parts| :: parts[k] == SearchSlug(query) && forall j | k < j < |parts| :: parts[j] == []
  {
    var parts := Split(query, '/');
    ContainsFirstChar(query, "are.na");
    AllPiecesEmpty(query, '/');
    LastNonEmptyIsLast(parts);
    var k :| 0 <= k < |parts| && parts[k] == LastNonEmpty(parts).value && parts[k] != [] &&
      forall j | k < j < |parts| :: parts[j] == [];
    assert '/' !in parts[k];
  }

  /** The last piece of a split is empty only when the text ends with the separator. */
  lemma {:induction false} LastPieceOfSplit(s: string, sep: char)
    requires s != [] && s[|s| - 1] != sep
    ensures Split(s, sep)[|Split(s, sep)| - 1] != []
    decreases |s|
  {
    var parts := Split(s, sep);
    if |s| == 1 {
      assert parts == [[s[0]] + []];
    } else {
      LastPieceOfSplit(s[1..], sep);
      var rest := Split(s[1..], sep);
      if s[0] == sep {
        assert parts == [[]] + rest;
      } else if |rest| == 1 {
        assert parts == [[s[0]] + rest[0]];
      } else {
        assert parts == [[s[0]] + rest[0]] + rest[1..];
        assert parts[|parts| - 1] == rest[|rest| - 1];
      }
    }
  }

  class ChannelsPage {
    var isLoading: bool
    var cards: seq<Card>
    /** The text of the channel input box. */
    var input: string
    /** The last address assigned to `window.location.href`. */
    var location: Option<string>
    /** `state.featuredChannels`. */
    const featuredChannels: seq<string>
    /** `CHANNELS_CONFIG`. */
    const config: seq<ChannelConfig>

    /** The page state: not loading, and the featured channels are the configured slugs in
        configuration order. */
    constructor()
      ensures !isLoading && cards == [] && input == [] && location == None
      ensures config == ChannelsConfig && featuredChannels == ConfigSlugs(ChannelsConfig)
    {
      isLoading := false;
      cards := [];
      input := [];
      location := None;
      config := ChannelsConfig;
      featuredChannels := ConfigSlugs(ChannelsConfig);
    }

    /** `loadFeaturedChannels()`, with `responses[k]` the outcome of fetching
        `featuredChannels[k]` (None for a failed fetch), as `Promise.all` over the featured slugs
        delivers them: the grid is cleared, refilled card by card, and the loading flag is down
        again at the end. */
    method LoadFeaturedChannels(responses: seq<Option<Channel>>)
      requires |responses| == |featuredChannels|
      modifies this
      ensures cards == FeaturedCards(config, responses)
      ensures !isLoading && input == old(input) && location == old(location)
    {
      isLoading := true;
      cards := [];
      var valid := ValidChannels(responses);
      if |valid| == 0 {
        RenderConfigured();
      } else {
        RenderLoaded(valid);
      }
      isLoading := false;
    }

    /** The fallback branch: one card per configured channel, in configuration order. */
    method RenderConfigured()
      requires cards == []
      modifies this`cards
      ensures cards == seq(|config|, k requires 0 <= k < |config| => CardFor(FromConfig(config[k])))
    {
      var i := 0;
      while i < |config|
        invariant 0 <= i <= |config|
        invariant cards == seq(i, k requires 0 <= k < i => CardFor(FromConfig(config[k])))
      {
        var card := CardFor(FromConfig(config[i]));
        cards := cards + [card];
        i := i + 1;
      }
    }

    /** The normal branch: one card per loaded channel, in order. */
    method RenderLoaded(valid: seq<Channel>)
      requires cards == []
      modifies this`cards
      ensures cards == seq(|valid|, k requires 0 <= k < |valid| => CardFor(valid[k]))
    {
      var i := 0;
      while i < |valid|
        invariant 0 <= i <= |valid|
        invariant cards == seq(i, k requires 0 <= k < i => CardFor(valid[k]))
      {
        var card := CardFor(valid[i]);
        cards := cards + [card];
        i := i + 1;
      }
    }

    /** `handleSearch()`: nothing for an empty trimmed input; otherwise the browser goes to the
        viewer with the slug of the query (the corrected reading of a pasted URL). */
    method HandleSearch()
      modifies this
      ensures Trim(old(input)) == [] ==> location == old(location)
      ensures Trim(old(input)) != [] ==> location == Some(ViewerTarget(SearchSlug(Trim(old(input)))))
      ensures isLoading == old(isLoading) && cards == old(cards) && input == old(input)
    {
      var query := Trim(input);
      if query == [] {
        return;
      }
      location := Some(ViewerTarget(SearchSlug(query)));
    }
  }
}
