/** The records the Open Library search endpoint returns, and the outcomes of
    the two kinds of request the application makes to it. */
module Catalog {
  import opened Optional

  /** One entry of the response's `docs` array, reduced to the fields the
      application reads. Every field may be absent from the JSON. */
  datatype Book = Book(
    key: Option<string>,               // `key`, compared with `===`
    title: Option<string>,             // `title`
    authorName: Option<seq<string>>,   // `author_name`, an array of names
    coverId: Option<int>)              // `cover_i`, a cover image number

  /** What `data.docs` turned out to be once the body was parsed. */
  datatype Docs = DocsArray(items: seq<Book>) | NotAnArray

  /** How the main search request ended: a 2xx response whose body parsed,
      a response with a non-2xx status, or a rejected `fetch` or `res.json()`. */
  datatype SearchOutcome = Ok(docs: Docs) | NotOk | Failed

  /** How a suggestion request ended. Its status is never examined: any
      response whose body parses yields `Parsed`, and a rejected `fetch` or
      `res.json()` yields `Thrown`. */
  datatype SuggestOutcome = Parsed(docs: Docs) | Thrown
}
