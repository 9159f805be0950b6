/** The search / saved-view state machine of src/App.js together with the
    handlers of src/components/Navbar.js, as one object whose fields are the
    React state of both components.

    Two asynchronous operations are split into the step that issues a request
    and the step that receives its outcome, so that the states in between can be
    observed: `HandleSearch` / `CompleteSearch` for the main search, and
    `FireDebounce` / `CompleteSuggestions` for the live suggestions. Requests
    still awaiting an outcome are kept in issue order, and any of them may be
    completed next. React's effect on `[query]` (Navbar.js:61-71) is run by
    `SetQuery` whenever the query actually changes. */
module App {
  import opened Optional
  import opened JsText
  import opened Catalog
  import opened Persistence
  import opened SavedList
  import opened Suggestions

  /** The one message a failed search shows. */
  const SearchErrorMessage := "Something went wrong. Please try again."

  /** The query of the hero section's button. */
  const HeroQuery := "Harry Potter"

  /** The names of the Explore menu's categories: the texts it searches for. */
  const Categories: seq<string> := [
    "Fiction", "Non-Fiction", "Science & Technology", "History", "Fantasy", "Romance",
    "Mystery & Thriller", "Children\U{2019}s Books", "Art & Design", "Poetry & Literature",
    "Philosophy", "Comics & Graphic Novels"]

  /** The debounce effect schedules a suggestion request only for a query whose
      trimmed text is longer than one UTF-16 code unit (Navbar.js:63). */
  predicate WorthSuggesting(query: string) {
    Utf16Length(Trim(query)) > 1
  }

  /** While loading, no error is shown and some search is awaiting its outcome;
      no request is ever issued for a blank query. */
  predicate SearchInvariant(loading: bool, error: string, searchRequests: seq<string>) {
    && (loading ==> error == "" && searchRequests != [])
    && (forall k :: 0 <= k < |searchRequests| ==> searchRequests[k] != [])
  }

  /** At most one suggestion timer is pending, and it is for the current query,
      which is worth suggesting for. */
  predicate TimerInvariant(pending: Option<string>, query: string) {
    pending.Some? ==> pending.value == query && WorthSuggesting(query)
  }

  /** Storage holds the current theme, and its saved list reads back as the current one. */
  predicate StorageInvariant(storage: Storage, darkMode: bool, savedBooks: seq<Book>) {
    && DarkModeKey in storage && storage[DarkModeKey] == StoredText(BoolText(darkMode))
    && LoadSavedBooks(storage) == Hydrated(savedBooks)
  }

  function RemoveAt<T>(s: seq<T>, i: nat): (r: seq<T>)
    requires i < |s|
    ensures |r| == |s| - 1
    ensures forall k :: 0 <= k < |r| ==> r[k] == if k < i then s[k] else s[k + 1]
  {
    s[..i] + s[i + 1..]
  }

  class BookFinder {
    // App's state (App.js:11-18).
    var query: string
    var books: seq<Book>
    var savedBooks: seq<Book>
    var loading: bool
    var searched: bool
    var error: string
    var showSaved: bool
    var darkMode: bool
    /** The browser's localStorage. */
    var storage: Storage
    /** The trimmed text of every main search request still awaiting its outcome, oldest first. */
    var searchRequests: seq<string>

    // Navbar's state (Navbar.js:16-18).
    var showSuggestions: bool
    var liveSuggestions: seq<string>
    /** `debounceRef.current`: the live timer, if any, with the text it will load. */
    var pendingSuggestion: Option<string>
    /** The text of every suggestion request still awaiting its outcome, oldest first. */
    var suggestionRequests: seq<string>

    /** The invariant every handler keeps. */
    ghost predicate Valid()
      reads this
    {
      && SearchInvariant(loading, error, searchRequests)
      && TimerInvariant(pendingSuggestion, query)
      && StorageInvariant(storage, darkMode, savedBooks)
    }

    /** What the effect on `[query]` (Navbar.js:61-71) leaves behind when the query
        went from `before` to its current value: nothing if it did not change;
        otherwise the old timer is cancelled and a new one is scheduled for a query
        worth suggesting, while any shorter query empties the suggestion list.
        Requests already sent are never cancelled, which the frames of the methods
        that run the effect say by leaving `suggestionRequests` out. */
    twostate predicate QueryEffect(before: string)
      reads this
    {
      if before == query then
        pendingSuggestion == old(pendingSuggestion) && liveSuggestions == old(liveSuggestions)
      else if WorthSuggesting(query) then
        pendingSuggestion == Some(query) && liveSuggestions == old(liveSuggestions)
      else
        pendingSuggestion == None && liveSuggestions == []
    }

    /** The app as mounted over `storage0`: the initial state of both components,
        the theme read from storage and written back by App's theme effect, and
        the saved list that App's mount effect read. */
    constructor Mount(storage0: Storage, saved: seq<Book>)
      requires LoadSavedBooks(storage0) == Hydrated(saved)
      ensures Valid()
      ensures query == "" && books == [] && !loading && !searched && error == "" && !showSaved
      ensures searchRequests == []
      ensures !showSuggestions && liveSuggestions == [] && pendingSuggestion == None && suggestionRequests == []
      ensures darkMode == InitialDarkMode(storage0) && savedBooks == saved
      ensures storage == storage0[DarkModeKey := StoredText(BoolText(darkMode))]
    {
      query, books, loading, searched, error, showSaved := "", [], false, false, "", false;
      darkMode := InitialDarkMode(storage0);
      storage := storage0[DarkModeKey := StoredText(BoolText(InitialDarkMode(storage0)))];
      savedBooks := saved;
      searchRequests := [];
      showSuggestions, liveSuggestions, pendingSuggestion, suggestionRequests := false, [], None, [];
      new;
      KeysIndependent(storage0, StoredText(BoolText(darkMode)));
    }

    /** `books` or `savedBooks`, by view (App.js:76). */
    function BooksToDisplay(): seq<Book>
      reads this
    {
      if showSaved then savedBooks else books
    }

    /** The hero section (App.js:93). */
    predicate ShowsHero()
      reads this
    {
      !searched && !showSaved
    }

    /** The error alert (App.js:122). */
    predicate ShowsError()
      reads this
    {
      error != ""
    }

    /** "No results found" (App.js:131). */
    predicate ShowsNoResults()
      reads this
    {
      !loading && searched && |BooksToDisplay()| == 0 && error == ""
    }

    /** The grid of book cards (App.js:138). */
    predicate ShowsCards()
      reads this
    {
      !loading && |BooksToDisplay()| > 0
    }

    /** The suggestion dropdown (Navbar.js:225). */
    predicate ShowsSuggestions()
      reads this
    {
      showSuggestions && |liveSuggestions| > 0
    }

    /** Whether a card shows its book as saved (App.js:145). */
    predicate IsSaved(book: Book)
      reads this
    {
      HasKey(savedBooks, book.key)
    }

    /** `setQuery(value)` followed by the effect on `[query]` when the value changed. */
    method SetQuery(value: string)
      requires Valid()
      modifies this`query, this`pendingSuggestion, this`liveSuggestions
      ensures Valid()
      ensures query == value && QueryEffect(old(query))
    {
      if value != query {
        query := value;
        pendingSuggestion := None;
        if WorthSuggesting(query) {
          pendingSuggestion := Some(query);
        } else {
          liveSuggestions := [];
        }
      }
    }

    /** `handleSearch(q)` up to its `await` (App.js:34-47): a blank query returns the
        app to idle; any other issues one request for the trimmed text, with
        loading on and the error cleared. `None` stands for a missing argument. */
    method HandleSearch(q: Option<string>)
      requires Valid()
      modifies this`searched, this`books, this`error, this`loading, this`searchRequests
      ensures Valid()
      ensures var text := Trim(q.GetOr(old(query)));
        && (text == [] ==> && !searched && books == [] && error == ""
                           && loading == old(loading) && searchRequests == old(searchRequests))
        && (text != [] ==> && searched && loading && error == "" && books == old(books)
                           && searchRequests == old(searchRequests) + [text])
    {
      var text := Trim(q.GetOr(query));
      if text == [] {
        searched := false;
        books := [];
        error := "";
        return;
      }
      loading := true;
      error := "";
      searched := true;
      searchRequests := searchRequests + [text];
    }

    /** The rest of `handleSearch` once request `i` has its outcome (App.js:48-59):
        the parsed `docs` on success, the fixed error otherwise, and loading off
        whatever happened. Nothing ties the outcome to the newest request. */
    method CompleteSearch(i: nat, outcome: SearchOutcome)
      requires Valid() && i < |searchRequests|
      modifies this`searchRequests, this`books, this`error, this`loading
      ensures Valid()
      ensures outcome.Ok? ==> books == (if outcome.docs.DocsArray? then outcome.docs.items else [])
                              && error == old(error)
      ensures !outcome.Ok? ==> books == [] && error == SearchErrorMessage
      ensures !loading && searchRequests == RemoveAt(old(searchRequests), i)
    {
      searchRequests := RemoveAt(searchRequests, i);
      match outcome {
        case Ok(docs) =>
          books := if docs.DocsArray? then docs.items else [];
        case _ =>
          error := SearchErrorMessage;
          books := [];
      }
      loading := false;
    }

    /** `toggleSaveBook(book)` (App.js:62-74): the new list, written to storage. */
    method ToggleSaveBook(book: Book)
      requires Valid()
      modifies this`savedBooks, this`storage
      ensures Valid()
      ensures savedBooks == Toggle(old(savedBooks), book)
      ensures storage == old(storage)[SavedBooksKey := StoredBooks(savedBooks)]
      ensures IsSaved(book) <==> !old(IsSaved(book))
      ensures UniqueKeys(old(savedBooks)) ==> UniqueKeys(savedBooks)
    {
      ToggleFlipsKey(savedBooks, book, book.key);
      if UniqueKeys(savedBooks) {
        ToggleKeepsUnique(savedBooks, book);
      }
      savedBooks := Toggle(savedBooks, book);
      storage := storage[SavedBooksKey := StoredBooks(savedBooks)];
      SavedBooksRoundTrip(old(storage), savedBooks);
    }

    /** The theme button (App.js:86), with the theme effect writing it (App.js:24-27). */
    method ToggleDarkMode()
      requires Valid()
      modifies this`darkMode, this`storage
      ensures Valid()
      ensures darkMode == !old(darkMode)
      ensures storage == old(storage)[DarkModeKey := StoredText(BoolText(darkMode))]
    {
      darkMode := !darkMode;
      storage := storage[DarkModeKey := StoredText(BoolText(darkMode))];
      KeysIndependent(old(storage), StoredText(BoolText(darkMode)));
    }

    /** The hero section's button (App.js:103-106); it exists only while the hero shows. */
    method TryHeroQuery()
      requires Valid() && ShowsHero()
      modifies this`query, this`pendingSuggestion, this`liveSuggestions, this`searched, this`books, this`error, this`loading, this`searchRequests
      ensures Valid()
      ensures query == HeroQuery && QueryEffect(old(query))
      ensures searched && loading && error == "" && books == old(books)
      ensures searchRequests == old(searchRequests) + [HeroQuery]
    {
      SetQuery(HeroQuery);
      assert Trim(HeroQuery) == HeroQuery;
      HandleSearch(Some(HeroQuery));
    }

    /** The debounce timer firing (Navbar.js:64): it calls `loadSuggestions` with
        the query it was scheduled for, which is always long enough to be fetched. */
    method FireDebounce()
      requires Valid() && pendingSuggestion.Some?
      modifies this`pendingSuggestion, this`liveSuggestions, this`suggestionRequests
      ensures Valid()
      ensures pendingSuggestion == None && suggestionRequests == old(suggestionRequests) + [query]
      ensures liveSuggestions == old(liveSuggestions)
    {
      var text := pendingSuggestion.value;
      pendingSuggestion := None;
      TrimNotLonger(text);
      LoadSuggestions(text);
    }

    /** `loadSuggestions(text)` up to its `await` (Navbar.js:41-48): text shorter
        than two code units clears the suggestions without a request. */
    method LoadSuggestions(text: string)
      requires Valid()
      modifies this`liveSuggestions, this`suggestionRequests
      ensures Valid()
      ensures text == "" || Utf16Length(text) < 2 ==>
                liveSuggestions == [] && suggestionRequests == old(suggestionRequests)
      ensures !(text == "" || Utf16Length(text) < 2) ==>
                liveSuggestions == old(liveSuggestions) && suggestionRequests == old(suggestionRequests) + [text]
    {
      if text == "" || Utf16Length(text) < 2 {
        liveSuggestions := [];
        return;
      }
      suggestionRequests := suggestionRequests + [text];
    }

    /** The rest of `loadSuggestions` once suggestion request `i` has its outcome
        (Navbar.js:49-58): a parsed `docs` array replaces the suggestions; anything
        else leaves them, and the search state, as they were. */
    method CompleteSuggestions(i: nat, outcome: SuggestOutcome)
      requires Valid() && i < |suggestionRequests|
      modifies this`suggestionRequests, this`liveSuggestions
      ensures Valid()
      ensures suggestionRequests == RemoveAt(old(suggestionRequests), i)
      ensures liveSuggestions == if outcome.Parsed? && outcome.docs.DocsArray?
                                 then SuggestionTitles(outcome.docs.items) else old(liveSuggestions)
    {
      suggestionRequests := RemoveAt(suggestionRequests, i);
      if outcome.Parsed? && outcome.docs.DocsArray? {
        liveSuggestions := SuggestionTitles(outcome.docs.items);
      }
    }

    /** What `doSearch(text)` does to the state (Navbar.js:74-80): the query set,
        searched on, suggestions hidden, the normal view, then `handleSearch(text)`,
        whose blank case turns searched off again. */
    twostate predicate SearchedFor(text: string)
      reads this
    {
      && query == text && !showSaved && !showSuggestions && QueryEffect(old(query))
      && (Trim(text) == [] ==> && !searched && books == [] && error == ""
                               && loading == old(loading) && searchRequests == old(searchRequests))
      && (Trim(text) != [] ==> && searched && loading && error == "" && books == old(books)
                               && searchRequests == old(searchRequests) + [Trim(text)])
    }

    /** `doSearch(text)` (Navbar.js:74-80). */
    method DoSearch(text: string)
      requires Valid()
      modifies this`query, this`pendingSuggestion, this`liveSuggestions, this`showSuggestions, this`showSaved,
              this`searched, this`books, this`error, this`loading, this`searchRequests
      ensures Valid() && SearchedFor(text)
    {
      SetQuery(text);
      searched := true;
      showSuggestions := false;
      showSaved := false;
      HandleSearch(Some(text));
    }

    /** The search form's submit (Navbar.js:82-85): a search for the current query
        unless it is blank, in which case nothing changes. The submit button is
        disabled while a search is loading (Navbar.js:212), so the form cannot be
        submitted then. */
    method Submit()
      requires Valid() && !loading
      modifies this`query, this`pendingSuggestion, this`liveSuggestions, this`showSuggestions, this`showSaved,
              this`searched, this`books, this`error, this`loading, this`searchRequests
      ensures Valid()
      ensures Trim(old(query)) == [] ==> unchanged(this)
      ensures Trim(old(query)) != [] ==> SearchedFor(old(query))
    {
      if Trim(query) != "" {
        DoSearch(query);
      }
    }

    /** A click on suggestion `i` of the dropdown (Navbar.js:87, 231). */
    method SuggestionClick(i: nat)
      requires Valid() && ShowsSuggestions() && i < |liveSuggestions|
      modifies this`query, this`pendingSuggestion, this`liveSuggestions, this`showSuggestions, this`showSaved,
              this`searched, this`books, this`error, this`loading, this`searchRequests
      ensures Valid() && SearchedFor(old(liveSuggestions[i]))
    {
      DoSearch(liveSuggestions[i]);
    }

    /** A click on a category of the Explore menu (Navbar.js:89-93, 151). */
    method ExploreClick(category: string)
      requires Valid() && category in Categories
      modifies this`query, this`pendingSuggestion, this`liveSuggestions, this`showSuggestions, this`showSaved,
              this`searched, this`books, this`error, this`loading, this`searchRequests
      ensures Valid() && SearchedFor(category)
    {
      DoSearch(category);
    }

    /** The Home button (Navbar.js:95-101): back to the idle, normal view. */
    method HomeClick()
      requires Valid()
      modifies this`query, this`pendingSuggestion, this`liveSuggestions, this`showSuggestions, this`showSaved,
              this`searched, this`books, this`error, this`loading, this`searchRequests
      ensures Valid()
      ensures query == "" && !searched && !showSaved && !showSuggestions && books == [] && error == ""
      ensures loading == old(loading) && searchRequests == old(searchRequests)
      ensures QueryEffect(old(query))
    {
      SetQuery("");
      searched := false;
      showSuggestions := false;
      showSaved := false;
      assert Trim("") == [];
      HandleSearch(Some(""));
    }

    /** The Saved button (Navbar.js:168-183): flips the view and, either way,
        clears the query, the searched flag, the results and the error. */
    method SavedClick()
      requires Valid()
      modifies this`query, this`pendingSuggestion, this`liveSuggestions, this`showSuggestions, this`showSaved,
              this`searched, this`books, this`error, this`loading, this`searchRequests
      ensures Valid()
      ensures showSaved == !old(showSaved)
      ensures query == "" && !searched && !showSuggestions && books == [] && error == ""
      ensures loading == old(loading) && searchRequests == old(searchRequests)
      ensures QueryEffect(old(query))
    {
      // Both branches of the handler make the same batched updates, except that
      // entering the view sets showSaved and leaving it clears it.
      SetQuery("");
      searched := false;
      showSuggestions := false;
      showSaved := !showSaved;
      assert Trim("") == [];
      HandleSearch(Some(""));
    }

    /** Focusing the search box (Navbar.js:200-203). */
    method Focus()
      requires Valid()
      modifies this`showSuggestions, this`showSaved
      ensures Valid()
      ensures showSuggestions && !showSaved
    {
      showSuggestions := true;
      showSaved := false;
    }

    /** Editing the search box (Navbar.js:205-209): only the query, the dropdown and
        the view change; results, the searched flag and errors stay. */
    method Change(value: string)
      requires Valid()
      modifies this`query, this`pendingSuggestion, this`liveSuggestions, this`showSuggestions, this`showSaved
      ensures Valid()
      ensures query == value && showSuggestions && !showSaved && QueryEffect(old(query))
    {
      SetQuery(value);
      showSuggestions := true;
      showSaved := false;
    }

    /** The save button of card `i` in the grid (App.js:140-146, BookCard.js:15):
        the card's own record goes to `toggleSaveBook`. */
    method CardSaveClick(i: nat)
      requires Valid() && ShowsCards() && i < |BooksToDisplay()|
      modifies this`savedBooks, this`storage
      ensures Valid()
      ensures savedBooks == Toggle(old(savedBooks), old(BooksToDisplay()[i]))
      ensures storage == old(storage)[SavedBooksKey := StoredBooks(savedBooks)]
    {
      ToggleSaveBook(BooksToDisplay()[i]);
    }
  }

  /** What the page shows never contradicts itself: while a search is loading only
      the spinner shows, and "No results found" never shows beside the error or
      the cards (App.js:122-138). */
  lemma RenderExclusive(app: BookFinder)
    requires app.Valid()
    ensures app.loading ==> !app.ShowsError() && !app.ShowsNoResults() && !app.ShowsCards()
    ensures app.ShowsNoResults() ==> !app.ShowsError() && !app.ShowsCards()
  {
  }

  /** How mounting ends: a running app, or the saved-list effect throwing. */
  datatype Launch = Running(app: BookFinder) | MountFailed

  /** Mounting the app over what storage holds (App.js:11-32): it runs exactly when
      the stored saved list can be read, with that list and the stored theme. */
  method Start(storage0: Storage) returns (r: Launch)
    ensures r.Running? <==> LoadSavedBooks(storage0).Hydrated?
    ensures r.Running? ==>
      && fresh(r.app) && r.app.Valid()
      && r.app.savedBooks == LoadSavedBooks(storage0).books
      && r.app.darkMode == InitialDarkMode(storage0)
      && r.app.query == "" && r.app.books == [] && !r.app.loading && !r.app.searched
      && r.app.error == "" && !r.app.showSaved && r.app.searchRequests == []
      && !r.app.showSuggestions && r.app.liveSuggestions == [] && r.app.pendingSuggestion == None
      && r.app.suggestionRequests == []
      && r.app.storage == storage0[DarkModeKey := StoredText(BoolText(r.app.darkMode))]
  {
    var hydration := LoadSavedBooks(storage0);
    if hydration.Hydrated? {
      var app := new BookFinder.Mount(storage0, hydration.books);
      r := Running(app);
    } else {
      r := MountFailed;
    }
  }
}
