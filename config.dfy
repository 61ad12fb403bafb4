/** The channel list of js/config.js (`CHANNELS_CONFIG`) and the owner name of
    `USER_CONFIG`. The sample image URLs of some entries are not used by any modelled code and
    are not part of this model. */
module Config {
  import opened Common

  /** One configured channel; `length` is absent where the entry has none. */
  datatype ChannelConfig = ChannelConfig(title: string, slug: string, description: string, length: Option<int>)

  const ChannelsConfig: seq<ChannelConfig> := [
      ChannelConfig("It's a Vibe", "it-s-a-vibe",
        "Collection of vibes and aesthetic inspirations.", Some(0)),
      ChannelConfig("Accidental Baroque", "accidental-baroque",
        "a collection of accidental baroque", None),
      ChannelConfig("Interior 2030", "interior-2030",
        "What I think is good living in a house", Some(0)),
      ChannelConfig("Business Cards", "business-cards-gk-eigsa-4s",
        "Collection of business card designs and inspiration.", None),
      ChannelConfig("Photography", "photography-o9r85qh8qv8",
        "Curated collection of inspiring photography.", Some(0)),
      ChannelConfig("Football is Life", "football-is-life-5gfzfkrbvgq",
        "The beautiful game and its impact on life and culture.", None),
      ChannelConfig("Words", "words-igfvslsuyr0",
        "A collection of meaningful words and phrases.", None),
      ChannelConfig("Graphic", "graphic-03cnlqdnkyy",
        "Graphic design inspiration and visual concepts.", Some(0)),
      ChannelConfig("Sustainable UX", "sustainable-ux",
        "Exploring sustainable practices in user experience design.", None),
      ChannelConfig("Human and Their Computer", "human-and-their-computer",
        "The relationship between humans and technology.", None),
      ChannelConfig("The Good Software", "the-good-software",
        "Examples and principles of well-designed software.", None),
      ChannelConfig("Photography Campaign", "photography-campaign-gbdhtdhgmhc",
        "Visual storytelling through photography campaigns.", None),
      ChannelConfig("Mind of the Machine", "mind-of-the-machine",
        "Exploring artificial intelligence and machine learning concepts.", None),
      ChannelConfig("Artificial Complexity", "artificial-complexity",
        "A collection exploring artificial complexity in design and technology.", Some(42)),
      ChannelConfig("Time and the Future", "time-and-the-future",
        "Explorations of time, futurism, and temporal concepts.", Some(38)),
      ChannelConfig("Community Through the Lens", "community-through-the-lens",
        "Visual explorations of community and connection.", Some(31)),
      ChannelConfig("Tennis is Life", "tennis-is-life",
        "The philosophy, aesthetics, and culture of tennis.", Some(27)),
      ChannelConfig("Spatial Interfaces", "spatial-interfaces",
        "Innovative approaches to spatial interface design.", Some(45)),
      ChannelConfig("The Good Days", "the-good-days",
        "Moments and memories of good days.", Some(0)),
      ChannelConfig("Interface Metaphors", "interface-metaphors",
        "Exploring metaphors in interface design.", Some(0)),
      ChannelConfig("Book Design", "book-design-90mbcfgysb4",
        "Inspirational book design and typography.", Some(0))
    ]

  /** `USER_CONFIG.full_name`. */
  const UserFullName: string := "Kent"

  /** `CHANNELS_CONFIG.map(channel => channel.slug)`, in configuration order. */
  function ConfigSlugs(config: seq<ChannelConfig>): (r: seq<string>)
    ensures |r| == |config| && forall k | 0 <= k < |config| :: r[k] == config[k].slug
  {
    seq(|config|, k requires 0 <= k < |config| => config[k].slug)
  }

  /** `CHANNELS_CONFIG.find(c => c.slug === slug)`: the first entry with that slug. */
  function FindBySlug(config: seq<ChannelConfig>, slug: string): (r: Option<ChannelConfig>)
    ensures r.None? <==> forall k | 0 <= k < |config| :: config[k].slug != slug
    ensures r.Some? ==> exists k | 0 <= k < |config| ::
      config[k] == r.value && r.value.slug == slug && forall j | 0 <= j < k :: config[j].slug != slug
  {
    if config == [] then None
    else if config[0].slug == slug then Some(config[0])
    else
      var r := FindBySlug(config[1..], slug);
      assert forall k | 1 <= k < |config| :: config[k] == config[1..][k - 1];
      if r.Some? then
        var k :| 0 <= k < |config[1..]| && config[1..][k] == r.value && r.value.slug == slug &&
          forall j | 0 <= j < k :: config[1..][j].slug != slug;
        assert config[k + 1] == r.value;
        r
      else r
  }
}
