/** Concrete runs of the app from a fresh mount over empty storage: what the
    handlers of src/App.js and src/components/Navbar.js do when their steps
    interleave. */
module Scenarios {
  import opened Optional
  import opened JsText
  import opened Catalog
  import opened Persistence
  import opened SavedList
  import opened App

  /** A fresh app after clicking the Explore categories "Fiction" and then "History":
      both searches are in flight. */
  method TwoSearchesInFlight() returns (app: BookFinder)
    ensures fresh(app) && app.Valid()
    ensures app.searchRequests == ["Fiction", "History"] && app.loading && app.error == ""
    ensures !app.showSaved
  {
    app := new BookFinder.Mount(map[], []);
    TrimUntouched("Fiction");
    TrimUntouched("History");
    app.ExploreClick("Fiction");
    app.ExploreClick("History");
  }

  /** The newer search succeeds first and the older one then fails. Nothing ties
      an outcome to the newest request, so the stale failure replaces the newer
      results with the error (App.js:34-59). */
  method StaleFailureWins(found: seq<Book>) returns (books: seq<Book>, error: string, loading: bool)
    ensures books == [] && error == SearchErrorMessage && !loading
  {
    var app := TwoSearchesInFlight();
    app.CompleteSearch(1, Ok(DocsArray(found)));
    app.CompleteSearch(0, Failed);
    books, error, loading := app.books, app.error, app.loading;
  }

  /** The first outcome to arrive turns loading off although another request is
      still awaiting its outcome (App.js:57-59). */
  method LoadingEndsEarly(found: seq<Book>) returns (loading: bool, outstanding: nat)
    ensures !loading && outstanding == 1
  {
    var app := TwoSearchesInFlight();
    app.CompleteSearch(0, Ok(DocsArray(found)));
    loading, outstanding := app.loading, |app.searchRequests|;
  }

  /** A failure followed by a success of the other request: success does not clear
      the error, so the alert and the cards show at once (App.js:53, 122, 138). */
  method ErrorBesideCards(b: Book) returns (alert: bool, cards: bool)
    ensures alert && cards
  {
    var app := TwoSearchesInFlight();
    app.CompleteSearch(0, NotOk);
    app.CompleteSearch(0, Ok(DocsArray([b])));
    alert, cards := app.ShowsError(), app.ShowsCards();
  }

  /** A fresh app after typing "h" and then "ha": the one-letter query scheduled
      nothing and cleared the suggestions; the second keystroke scheduled a timer. */
  method TypedHa() returns (app: BookFinder)
    ensures fresh(app) && app.Valid()
    ensures app.query == "ha" && app.pendingSuggestion == Some("ha") && app.liveSuggestions == []
    ensures app.suggestionRequests == []
  {
    app := new BookFinder.Mount(map[], []);
    assert !WorthSuggesting("h") && WorthSuggesting("ha") by {
      TrimUntouched("h");
      TrimUntouched("ha");
    }
    app.Change("h");
    app.Change("ha");
  }

  /** Typing "r" after "ha" replaces the pending timer with one for "har". */
  method TypedHar() returns (app: BookFinder)
    ensures fresh(app) && app.Valid()
    ensures app.query == "har" && app.pendingSuggestion == Some("har") && app.suggestionRequests == []
  {
    app := TypedHa();
    assert WorthSuggesting("har") by {
      TrimUntouched("har");
    }
    app.Change("har");
  }

  /** Typing "h", "ha", "har": each keystroke replaces the pending timer, so when it
      fires only "har" is requested (Navbar.js:61-71). */
  method DebounceKeepsLatest() returns (requests: seq<string>)
    ensures requests == ["har"]
  {
    var app := TypedHar();
    app.FireDebounce();
    requests := app.suggestionRequests;
  }

  /** A book saved in one session is the saved list of the next one (App.js:29-32, 72-73). */
  method SavedAcrossReload(book: Book) returns (next: Launch)
    ensures next.Running? && next.app.savedBooks == [book]
  {
    var app := new BookFinder.Mount(map[], []);
    app.ToggleSaveBook(book);
    next := Start(app.storage);
  }

  /** Entering and leaving the Saved view shows the saved list and then the hero
      again, with the results cleared (Navbar.js:168-183, App.js:76, 93). */
  method SavedViewRoundTrip(book: Book) returns (shown: seq<Book>, heroAfter: bool, booksAfter: seq<Book>)
    ensures shown == [book] && heroAfter && booksAfter == []
  {
    var app := new BookFinder.Mount(map[], []);
    app.ToggleSaveBook(book);
    app.SavedClick();
    shown := app.BooksToDisplay();
    app.SavedClick();
    heroAfter, booksAfter := app.ShowsHero(), app.books;
  }
}
