/** The values src/components/BookCard.js derives from one book record. */
module BookCard {
  import opened Optional
  import opened JsText
  import opened Catalog

  const CoverUrlPrefix := "https://covers.openlibrary.org/b/id/"
  const CoverUrlSuffix := "-M.jpg"
  const PlaceholderUrl := "https://via.placeholder.com/320x480?text=No+Cover"
  const UnknownAuthor := "Unknown Author"

  /** Whether `book.cover_i` is truthy: present and not 0. */
  predicate HasCover(book: Book) {
    book.coverId.Some? && book.coverId.value != 0
  }

  /** The `src` of the card's image. */
  function ImageUrl(book: Book): (url: string)
    ensures HasCover(book) ==> url == CoverUrlPrefix + IntToString(book.coverId.value) + CoverUrlSuffix
    ensures !HasCover(book) ==> url == PlaceholderUrl
  {
    if HasCover(book) then CoverUrlPrefix + IntToString(book.coverId.value) + CoverUrlSuffix
    else PlaceholderUrl
  }

  /** Reads the cover number back out of a cover URL; `None` for any other URL. */
  function CoverIdOfUrl(url: string): Option<int> {
    var n := |CoverUrlPrefix|;
    var m := |CoverUrlSuffix|;
    if |url| >= n + m && url[..n] == CoverUrlPrefix && url[|url| - m..] == CoverUrlSuffix
    then ParseInt(url[n..|url| - m])
    else None
  }

  /** The image URL names the book's cover exactly: the cover number can be read
      back from it, and the placeholder is used exactly when there is none. */
  lemma ImageUrlNamesCover(book: Book)
    ensures CoverIdOfUrl(ImageUrl(book)) == if HasCover(book) then book.coverId else None
    ensures ImageUrl(book) == PlaceholderUrl <==> !HasCover(book)
  {
    assert PlaceholderUrl[8] != CoverUrlPrefix[8];
    if HasCover(book) {
      var digits := IntToString(book.coverId.value);
      var url := CoverUrlPrefix + digits + CoverUrlSuffix;
      assert url[..|CoverUrlPrefix|] == CoverUrlPrefix;
      assert url[|url| - |CoverUrlSuffix|..] == CoverUrlSuffix;
      assert url[|CoverUrlPrefix|..|url| - |CoverUrlSuffix|] == digits;
      IntToStringRoundTrip(book.coverId.value);
      assert url[8] == CoverUrlPrefix[8];
    } else {
      assert PlaceholderUrl[..|CoverUrlPrefix|] != CoverUrlPrefix;
    }
  }

  /** Two cards show the same image exactly when both lack a cover or both
      have the same cover number. */
  lemma ImageUrlInjective(a: Book, b: Book)
    ensures ImageUrl(a) == ImageUrl(b) <==>
      (!HasCover(a) && !HasCover(b)) || (HasCover(a) && HasCover(b) && a.coverId == b.coverId)
  {
    ImageUrlNamesCover(a);
    ImageUrlNamesCover(b);
  }

  /** The author line: the first name when `author_name` is present, otherwise
      "Unknown Author". A present but empty array renders nothing, shown as "". */
  function AuthorLine(book: Book): (line: string)
    ensures book.authorName.None? ==> line == UnknownAuthor
    ensures book.authorName.Some? && book.authorName.value != [] ==> line == book.authorName.value[0]
    ensures book.authorName == Some([]) ==> line == ""
  {
    match book.authorName
    case None => UnknownAuthor
    case Some(names) => if names == [] then "" else names[0]
  }

  /** The save button's `title`. */
  function SaveButtonTitle(isSaved: bool): (title: string)
    ensures title == "Remove from Saved" <==> isSaved
    ensures title == "Save Book" <==> !isSaved
  {
    if isSaved then "Remove from Saved" else "Save Book"
  }

  /** The save button's `className`: the template `save-btn ${isSaved ? "saved" : ""}`. */
  function SaveButtonClass(isSaved: bool): (cls: string)
    ensures |cls| >= 9 && cls[..9] == "save-btn "
    ensures |cls| > 9 <==> isSaved
    ensures isSaved ==> cls[9..] == "saved"
  {
    "save-btn " + (if isSaved then "saved" else "")
  }
}
