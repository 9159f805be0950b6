/** The two values src/App.js keeps in the browser's localStorage, as a
    key-to-value map, and how they are read back when the app mounts. */
module Persistence {
  import opened Catalog

  const DarkModeKey := "darkMode"
  const SavedBooksKey := "savedBooks"

  /** A stored string. `StoredBooks(bs)` is the text `JSON.stringify(bs)` the app
      wrote itself; `StoredText(t)` is any text `t` put there otherwise. JSON is
      not parsed: under the saved-list key every non-empty `StoredText`, array
      texts such as `"[ ]"` included, is read as a failed parse. */
  datatype Stored = StoredText(text: string) | StoredBooks(books: seq<Book>)

  type Storage = map<string, Stored>

  /** What reading the saved list at mount yields. `ParseFailure` is an
      exception escaping the mount effect: src/App.js does not catch it. */
  datatype Hydration = Hydrated(books: seq<Book>) | ParseFailure

  /** `String(b)`: what `localStorage.setItem` stores for a boolean. */
  function BoolText(b: bool): string {
    if b then "true" else "false"
  }

  /** `localStorage.getItem("darkMode") === "true"`: dark only for that exact text. */
  function InitialDarkMode(storage: Storage): (dark: bool)
    ensures dark <==> DarkModeKey in storage && storage[DarkModeKey] == StoredText("true")
  {
    DarkModeKey in storage && storage[DarkModeKey] == StoredText("true")
  }

  /** `JSON.parse(localStorage.getItem("savedBooks") || "[]")`: a missing or empty
      entry gives the empty list, a list the app wrote gives itself, and any other
      text is taken to throw. */
  function LoadSavedBooks(storage: Storage): (h: Hydration)
    ensures SavedBooksKey !in storage ==> h == Hydrated([])
    ensures SavedBooksKey in storage && storage[SavedBooksKey] == StoredText("") ==> h == Hydrated([])
    ensures SavedBooksKey in storage && storage[SavedBooksKey].StoredBooks? ==>
      h == Hydrated(storage[SavedBooksKey].books)
    ensures h.ParseFailure? <==>
      SavedBooksKey in storage && storage[SavedBooksKey].StoredText? && storage[SavedBooksKey].text != ""
  {
    if SavedBooksKey !in storage then Hydrated([])
    else match storage[SavedBooksKey]
      case StoredBooks(books) => Hydrated(books)
      case StoredText(text) => if text == "" then Hydrated([]) else ParseFailure
  }

  /** Writing the theme and reading it back gives the theme that was written. */
  lemma ThemeRoundTrip(storage: Storage, dark: bool)
    ensures InitialDarkMode(storage[DarkModeKey := StoredText(BoolText(dark))]) == dark
  {
  }

  /** Writing the saved list and reading it back gives the list that was written. */
  lemma SavedBooksRoundTrip(storage: Storage, books: seq<Book>)
    ensures LoadSavedBooks(storage[SavedBooksKey := StoredBooks(books)]) == Hydrated(books)
  {
  }

  /** The two entries are independent: writing one does not change how the other reads. */
  lemma KeysIndependent(storage: Storage, v: Stored)
    ensures LoadSavedBooks(storage[DarkModeKey := v]) == LoadSavedBooks(storage)
    ensures InitialDarkMode(storage[SavedBooksKey := v]) == InitialDarkMode(storage)
  {
    assert DarkModeKey != SavedBooksKey;
  }
}
