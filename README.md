# Book Finder: a verified model of its search and saved-view logic

Book Finder is a small React front end over the Open Library search API.
The user types a query and searches. Live title suggestions appear while
they type, and the user can save books to a "Saved" list that survives a
reload through `localStorage`. This project models the logic behind that
page, which lives in three files:

- `src/App.js` holds the search state machine (`handleSearch`), the saved
  list toggle (`toggleSaveBook`), the theme, the persistence of theme and
  saved list, and what the page shows.
- `src/components/Navbar.js` holds the suggestion pipeline, the debounce
  around it, and the search box, Home, Saved and Explore handlers.
- `src/components/BookCard.js` holds what a card derives from a book record.

How the model is laid out:

- `App.BookFinder` (in `app.dfy`) is one class whose fields are the React
  state of both App and Navbar. Each handler is a method that changes only
  the fields named in its `modifies` frame. Every handler keeps `Valid()`,
  which has three parts:
  - `SearchInvariant`: while loading, no error shows and some search is
    awaiting its outcome; no request is ever issued for a blank query.
  - `TimerInvariant`: at most one debounce timer is pending, and it is for
    the current query.
  - `StorageInvariant`: storage holds the current theme, and its saved list
    reads back as the current saved list.
- Both `await`s are split into a step that issues the request and a step
  that receives its outcome. `HandleSearch` / `CompleteSearch` model the
  main search; `FireDebounce` / `LoadSuggestions` / `CompleteSuggestions`
  model the suggestions.
- Requests awaiting their outcome are kept in issue order. Any one of them
  may complete next. That lets the model state the race the code has: a
  stale response overwrites newer results (`Scenarios.StaleFailureWins`).
- The fetch outcome is an input: `Ok(docs) | NotOk | Failed` for the search,
  `Parsed(docs) | Thrown` for suggestions. `docs` is either an array of book
  records or something else.
- React's effect on `[query]` (Navbar.js:61-71) runs inside `SetQuery`
  whenever the query actually changes. `QueryEffect` says what it leaves
  behind.
- Strings follow JavaScript:
  - `trim` removes JavaScript's whitespace set (`JsText.Trim`);
  - `.length` counts UTF-16 code units (`JsText.Utf16Length`);
  - a cover id prints in decimal (`JsText.IntToString`), which is how
    JavaScript prints a safe integer below 10^21.
- `localStorage` is a map from keys to stored values (`Persistence.Storage`).
  A stored value is either text or a saved list written by
  `JSON.stringify`.
- The render conditions of App.js are predicates on the object. `BooksToDisplay`
  is App.js:76. `ShowsHero`, `ShowsError`, `ShowsNoResults` and `ShowsCards`
  are App.js:93, 122, 131 and 138. `ShowsSuggestions` is Navbar.js:225, and
  `IsSaved` is App.js:145.

In these places the code's behaviour is easy to misread; the model follows
the code:

- A malformed stored saved list is not degraded to an empty list. App.js:30
  has no `try`, so mounting fails (`Persistence.LoadSavedBooks`, `App.Start`).
- Editing the search box (Navbar.js:205-209) sets only the query, the
  dropdown and `showSaved`. It does not reset `searched`, the results or
  the error.
- The debounce cancels only a pending timer. A suggestion request already
  sent still completes and replaces the list.
- `doSearch` hides the suggestion dropdown but leaves its contents.
- A successful search does not clear an error left by an earlier failed
  request that completed later. The alert and the cards can show together
  (`Scenarios.ErrorBesideCards`).
- Both branches of the Saved button clear the query, the searched flag and
  the results.

## Model

| member | source | states |
|---|---|---|
| JsText.TrimShape | src/App.js:35 | `trim` removes exactly the leading and trailing whitespace: the result is the slice of the input between its whitespace ends, and is empty or starts and ends with a non-whitespace character |
| JsText.TrimEmptyIff | src/App.js:37 | a query is blank (trims to empty) exactly when every character is whitespace |
| JsText.TrimIdempotent | src/components/Navbar.js:84 | trimming twice is trimming once |
| JsText.TrimUntouched | src/components/Navbar.js:63 | a text without whitespace at either end is its own trim |
| JsText.Utf16Length | src/components/Navbar.js:41 | `.length` lies between the number of characters and twice that |
| JsText.Utf16LengthAppend | src/components/Navbar.js:63 | `.length` of a concatenation is the sum of the lengths |
| JsText.TrimNotLonger | src/components/Navbar.js:63-64 | the trimmed query is never longer than the query, so the text the timer passes to `loadSuggestions` passes its two-unit check |
| JsText.NatToString | src/components/BookCard.js:6 | the decimal form of a cover id is non-empty, all digits, and has no leading zero unless it is `0` |
| JsText.NatToStringValue | src/components/BookCard.js:6 | the digits of a natural number read back as that number |
| JsText.IntToStringRoundTrip | src/components/BookCard.js:6 | the decimal form of any integer, sign included, parses back to it |
| JsText.IntToStringInjective | src/components/BookCard.js:6 | different cover ids print differently |
| Persistence.InitialDarkMode | src/App.js:17 | the theme starts dark exactly when the stored `darkMode` text is exactly `"true"` |
| Persistence.ThemeRoundTrip | src/App.js:24-27 | the theme written by the theme effect is the theme read back at the next mount |
| Persistence.LoadSavedBooks | src/App.js:29-32 | a missing or empty stored entry hydrates to `[]`, a list the app wrote hydrates to itself, and any other stored text counts as a failed parse (see "## Left out") |
| Persistence.SavedBooksRoundTrip | src/App.js:72-73 | the list written by `toggleSaveBook` is the list read back at the next mount |
| Persistence.KeysIndependent | src/App.js:26 | writing the theme never changes the saved list read back, and writing the saved list never changes the theme |
| SavedList.RemoveKey | src/App.js:67 | the filter keeps exactly the entries whose key differs from the toggled book's |
| SavedList.RemoveKeyConcat | src/App.js:67 | the filter works entry by entry over a concatenation, so the remaining entries keep their order |
| SavedList.RemoveAbsentKey | src/App.js:67 | filtering out a key no entry has changes nothing |
| SavedList.HasKeyAfterRemove | src/App.js:67 | after the filter, a key is present exactly when it is another key that was present |
| SavedList.Toggle | src/App.js:62-70 | a book whose key is present is removed with every entry having that key; otherwise it is appended at the end |
| SavedList.ToggleFlipsKey | src/App.js:63-70 | a toggle flips the presence of the book's key and leaves every other key's presence as it was |
| SavedList.ToggleTwiceKeys | src/App.js:63-70 | toggling the same book twice restores the presence of every key |
| SavedList.ToggleTwiceUnsaved | src/App.js:63-70 | toggling an unsaved book twice restores the list itself |
| SavedList.RemoveKeyKeepsUnique | src/App.js:67 | the filter keeps a list free of duplicate keys |
| SavedList.ToggleKeepsUnique | src/App.js:62-70 | a list with no duplicate keys has none after a toggle |
| Suggestions.Titles | src/components/Navbar.js:52 | the titles of the docs, position by position |
| Suggestions.IndexOf | src/components/Navbar.js:53 | `indexOf` is the first position holding the value, or -1 exactly when it is absent |
| Suggestions.KeepFirstTruthy | src/components/Navbar.js:53 | the filter keeps at most one entry per position it scans |
| Suggestions.KeptFirstOccurFrom | src/components/Navbar.js:53 | every kept title is non-empty and is the first occurrence of itself, at or after the scan's start |
| Suggestions.KeptInOrder | src/components/Navbar.js:53 | kept titles are in the order of their first occurrences |
| Suggestions.KeptComplete | src/components/Navbar.js:53 | every truthy first occurrence is kept |
| Suggestions.SuggestionTitles | src/components/Navbar.js:51-54 | at most seven suggestions |
| SuggestionProperties.SuggestionsOrdered | src/components/Navbar.js:51-54 | suggestions follow the order in which their titles first appear among the docs |
| SuggestionProperties.SuggestionsDistinct | src/components/Navbar.js:51-54 | no suggestion appears twice |
| SuggestionProperties.SuggestionsComeFromDocs | src/components/Navbar.js:51-54 | every suggestion is the non-empty title of some doc |
| SuggestionProperties.SuggestionsComplete | src/components/Navbar.js:51-54 | every non-empty title is suggested unless seven earlier distinct titles already fill the list |
| BookCard.ImageUrl | src/components/BookCard.js:5-7 | a truthy `cover_i` gives the cover URL around its decimal form; a missing or zero one gives the placeholder |
| BookCard.ImageUrlNamesCover | src/components/BookCard.js:5-7 | the cover id can be read back from the image URL, and the placeholder shows exactly when there is no cover |
| BookCard.ImageUrlInjective | src/components/BookCard.js:5-7 | two books share an image URL exactly when both lack a cover or both have the same cover id |
| BookCard.AuthorLine | src/components/BookCard.js:32 | the first author when `author_name` is present, "Unknown Author" when it is not, and nothing for an empty author list |
| BookCard.SaveButtonTitle | src/components/BookCard.js:16 | "Remove from Saved" exactly when saved, "Save Book" exactly when not |
| BookCard.SaveButtonClass | src/components/BookCard.js:14 | the class is always `save-btn `, followed by `saved` exactly when saved |
| App.BookFinder.Mount | src/App.js:11-32 | the initial state of App and Navbar, with the stored theme written back, the hydrated saved list, and the invariant established |
| App.BookFinder.SetQuery | src/components/Navbar.js:61-71 | the query is set; on a change the old timer is cancelled, a new one is scheduled only for a trimmed query longer than one unit, and otherwise the suggestions are cleared |
| App.BookFinder.HandleSearch | src/App.js:34-47 | a blank query sets `searched` off and clears books and error without a request and without touching `loading`; any other query turns loading and searched on, clears the error and issues one request for the trimmed text |
| App.BookFinder.CompleteSearch | src/App.js:48-59 | success sets books to `docs` when it is an array and to `[]` otherwise, leaving the error; failure sets the fixed error and clears books; either way loading ends and that request is done |
| App.BookFinder.ToggleSaveBook | src/App.js:62-74 | the saved list is toggled and written to storage under `savedBooks`; the book's saved mark flips; no duplicate keys appear; nothing else changes |
| App.BookFinder.ToggleDarkMode | src/App.js:86 | the theme flips and the theme effect (App.js:24-27) stores it |
| App.BookFinder.TryHeroQuery | src/App.js:101-106 | the hero button sets the query to "Harry Potter" and issues a search for it |
| App.BookFinder.FireDebounce | src/components/Navbar.js:64 | the pending timer fires and issues exactly one suggestion request, for the current query |
| App.BookFinder.LoadSuggestions | src/components/Navbar.js:40-48 | text shorter than two units clears the suggestions without a request; longer text issues a request |
| App.BookFinder.CompleteSuggestions | src/components/Navbar.js:49-58 | a parsed array of docs replaces the suggestions with its title list; anything else leaves them; the search state and error are never touched |
| App.BookFinder.DoSearch | src/components/Navbar.js:74-80 | the query is set, suggestions hidden, the normal view shown, then `handleSearch` runs on the text |
| App.BookFinder.Submit | src/components/Navbar.js:82-85 | a blank query changes nothing; any other query is searched for; it is only reachable while no search is loading, since the submit button is disabled then (Navbar.js:212) |
| App.BookFinder.SuggestionClick | src/components/Navbar.js:87 | clicking a suggestion searches for its title |
| App.BookFinder.ExploreClick | src/components/Navbar.js:89-93 | clicking a category searches for its name |
| App.BookFinder.HomeClick | src/components/Navbar.js:95-101 | the query is cleared, searched off, suggestions hidden, the normal view shown, and books and error cleared |
| App.BookFinder.SavedClick | src/components/Navbar.js:168-183 | `showSaved` flips; either way the query is cleared, searched off, suggestions hidden, and books and error cleared |
| App.BookFinder.Focus | src/components/Navbar.js:200-203 | focusing shows the suggestions and leaves the Saved view |
| App.BookFinder.Change | src/components/Navbar.js:205-209 | editing sets the query to the input, shows suggestions and leaves the Saved view; results, searched and error stay |
| App.BookFinder.CardSaveClick | src/components/BookCard.js:15 | a card's save button toggles that card's own record, unchanged |
| App.RenderExclusive | src/App.js:122-138 | while loading, neither the error, nor "No results found", nor the cards show; "No results found" never shows beside the error or the cards |
| App.Start | src/App.js:11-32 | mounting succeeds exactly when the stored saved list can be read, and then gives the whole initial state of App and Navbar: that list, the stored theme, no search or suggestion request outstanding, and storage changed only by the theme written back |
| Scenarios.StaleFailureWins | src/App.js:34-59 | with two searches in flight, a stale failure arriving last replaces the newer results with the error |
| Scenarios.LoadingEndsEarly | src/App.js:57-59 | the first outcome turns loading off while another request is still outstanding |
| Scenarios.ErrorBesideCards | src/App.js:53 | a failure then a success leaves the error alert and the cards on screen together |
| Scenarios.DebounceKeepsLatest | src/components/Navbar.js:61-71 | typing "h", "ha", "har" sends one suggestion request, for "har" |
| Scenarios.SavedAcrossReload | src/App.js:72-73 | a book saved in one session is the whole saved list of the next |
| Scenarios.SavedViewRoundTrip | src/components/Navbar.js:168-183 | entering the Saved view shows the saved list; leaving it shows the hero with the results cleared |

## Left out

- `src/components/Footer.js`: static markup plus the current year; it has no logic.
- JSX markup, Bootstrap classes, react-icons, the AOS animation (App.js:20-22), and the images and emoji of the Explore categories (Navbar.js:21-34). Only the category names are kept, as search inputs (`App.Categories`).
- The HTTP requests, `res.json()`, `JSON.parse` / `JSON.stringify` and `encodeURIComponent` are foreign calls. Their outcomes are inputs to `CompleteSearch` and `CompleteSuggestions`. The request URL and its `limit` are not modelled.
- A book record keeps only `key`, `title`, `author_name` and `cover_i`. `cover_i` is an integer; other JSON values in that field are not modelled.
- Persistence.LoadSavedBooks: only an absent entry, the empty text and a list the app wrote itself are read. Every other stored text counts as a failed parse, including array texts `JSON.parse` accepts (`"[ ]"`, `"[1]"`, or `"[]"` written by another page), because the model has no JSON parser; for such text the model's `App.Start` fails to mount where the app would mount.
- Lone UTF-16 surrogates are not represented. A JavaScript string is a sequence of UTF-16 code units and may hold one, while a model string is a sequence of Unicode scalar values. `JsText.Trim` and `JsText.Utf16Length` agree with JavaScript on every string the model can represent.
- BookCard.ImageUrl: cover ids are assumed to be safe integers below 10^21. For larger values `${book.cover_i}` prints exponent form (`1e+21`) and ids above 2^53 are not exact after `JSON.parse`, while the model prints every digit.
- Timing: the 400 ms debounce delay becomes the `FireDebounce` step. The 150 ms delayed hide on blur (Navbar.js:204) is not modelled.
- The mobile menu's `menuOpen` toggle, the dropdown's DOM class removal (Navbar.js:91-92) and the `document.body` class (App.js:25) are presentation-only.
- Effect cleanup on unmount (Navbar.js:68-70) is not modelled, and neither is `console.error` in the suggestion catch.
- React's batching and stale closures: each handler applies its updates in order to the current state.
- Persistence.InitialDarkMode: its own contract is a restatement of how it reads storage. What it means for the app is stated by `Persistence.ThemeRoundTrip` and `Persistence.KeysIndependent`.
- Suggestions.SuggestionTitles: its own contract bounds only the length. Order, distinctness, origin and completeness are lemmas in `SuggestionProperties`.
