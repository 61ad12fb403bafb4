/** Turning what the user typed into a channel slug (`extractChannelSlug`, written identically
    in js/script.js and js/commandk.js). */
module Slugs {
  import opened Common
  import opened Text

  /** The text handed to `new URL(...)`: the input itself when it starts with `http`, otherwise
      the input behind `https://`. */
  function Href(input: string): (r: string)
    ensures StartsWith(input, "http") ==> r == input
    ensures !StartsWith(input, "http") ==> r == "https://" + input
  {
    if StartsWith(input, "http") then input else "https://" + input
  }

  /** `url.pathname.split('/').filter(part => part)` and its last element. */
  function LastPathSegment(pathname: string): Option<string> {
    LastNonEmpty(Split(pathname, '/'))
  }

  /** The segment is `undefined` (None) exactly when the path is nothing but slashes; otherwise
      it is a non-empty piece of the path without a slash, followed only by empty pieces. */
  lemma LastPathSegmentIsLast(pathname: string)
    ensures LastPathSegment(pathname).None? <==> forall i | 0 <= i < |pathname| :: pathname[i] == '/'
    ensures LastPathSegment(pathname).Some? ==>
      var parts := Split(pathname, '/');
      var r := LastPathSegment(pathname).value;
      r != [] && '/' !in r &&
      exists k | 0 <= k < |parts| :: parts[k] == r && forall j | k < j < |parts| :: parts[j] == []
  {
    var parts := Split(pathname, '/');
    LastNonEmptyIsLast(parts);
    AllPiecesEmpty(pathname, '/');
    assert LastPathSegment(pathname).None? <==> forall k | 0 <= k < |parts| :: parts[k] == [];
  }

  /** `extractChannelSlug(input)`. `pathnameOf` stands for `new URL(href).pathname`, None when
      the URL constructor throws. Input without `are.na/` is returned as it is, and so is input
      whose URL does not parse; otherwise the slug is the last non-empty path segment. */
  function ExtractChannelSlug(input: string, pathnameOf: string -> Option<string>): (r: Option<string>)
    ensures !Contains(input, "are.na/") ==> r == Some(input)
    ensures Contains(input, "are.na/") && pathnameOf(Href(input)).None? ==> r == Some(input)
    ensures Contains(input, "are.na/") && pathnameOf(Href(input)).Some? ==>
      r == LastPathSegment(pathnameOf(Href(input)).value)
  {
    if Contains(input, "are.na/") then
      match pathnameOf(Href(input))
      case None => Some(input)
      case Some(pathname) => LastPathSegment(pathname)
    else Some(input)
  }

  /** JavaScript truthiness of the extracted slug: `undefined` and `''` are falsy. */
  predicate IsFalsy(slug: Option<string>) {
    slug.None? || slug.value == []
  }

  /** A non-empty input never yields the empty slug: the extraction fails only by finding no
      path segment, and then only for a URL whose path is nothing but slashes. */
  lemma ExtractedSlugFalsy(input: string, pathnameOf: string -> Option<string>)
    requires input != []
    ensures IsFalsy(ExtractChannelSlug(input, pathnameOf)) <==>
      Contains(input, "are.na/") && pathnameOf(Href(input)).Some? &&
      forall i | 0 <= i < |pathnameOf(Href(input)).value| :: pathnameOf(Href(input)).value[i] == '/'
  {
    if Contains(input, "are.na/") && pathnameOf(Href(input)).Some? {
      LastPathSegmentIsLast(pathnameOf(Href(input)).value);
    }
  }
}
