/** Values shared by every part of the viewer: the optional value, the content block as the
    channel API delivers it, and the outcome of one page request. */
module Common {

  /** A value that may be absent (JavaScript's `null`/`undefined`). */
  datatype Option<+T> = None | Some(value: T)

  /** The `class` discriminator of an Are.na block. */
  datatype BlockClass = Image | Text | Link | Media | Other(name: string)

  /** The `image` field of a block: `display` holds `image.display.url` when present. */
  datatype ImageInfo = ImageInfo(display: Option<string>)

  /** One content block. `connectedAt` is the raw `connected_at` text (an ISO 8601 date-time);
      `connectedTime` is the instant `new Date(connected_at)` denotes, in milliseconds. */
  datatype Block = Block(
    id: int,
    kind: BlockClass,
    title: string,
    connectedAt: string,
    connectedTime: int,
    image: Option<ImageInfo>,
    sourceUrl: Option<string>)

  /** What one `fetch` of a contents page yields, as seen by the code that awaits it:
      a response whose `ok` is false, a rejected promise (or a failing `json()`) with its
      message, a body whose `contents` is missing or not an array, or the `contents` array. */
  datatype FetchOutcome =
    | NotOk
    | Throws(message: string)
    | NoContents
    | Contents(items: seq<Block>)
}
