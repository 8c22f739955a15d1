/**
 The JSON shapes exchanged between client and server for error responses:
 FastAPI's `{"detail": ...}` body, whose `detail` is either a list of
 validation entries `{loc, msg}` or a plain message.
 */
module Wire {
  import opened Wrappers

  /** One step of a validation error's location: an object key or an array index. */
  datatype LocPart = Key(key: string) | Index(index: int)

  /** A validation entry; `loc` may be missing from an arbitrary error body. */
  datatype ErrEntry = ErrEntry(loc: Option<seq<LocPart>>, msg: string)

  /** The `detail` member of an error body, as far as the client distinguishes it. */
  datatype Detail =
    | Entries(entries: seq<ErrEntry>)
    | Message(text: string)
    | NoDetail
}
