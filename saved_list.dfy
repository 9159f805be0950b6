/** The saved-books list rules of src/App.js: membership by `key`, removal by
    `filter` and the toggle that either removes or appends. */
module SavedList {
  import opened Optional
  import opened Catalog

  /** `list.some((b) => b.key === key)` */
  predicate HasKey(list: seq<Book>, key: Option<string>) {
    exists i :: 0 <= i < |list| && list[i].key == key
  }

  /** No two entries share a key. */
  predicate UniqueKeys(list: seq<Book>) {
    forall i, j :: 0 <= i < j < |list| ==> list[i].key != list[j].key
  }

  /** `list.filter((b) => b.key !== key)` */
  function RemoveKey(list: seq<Book>, key: Option<string>): (r: seq<Book>)
    ensures |r| <= |list|
    ensures forall b :: b in r <==> b in list && b.key != key
  {
    if list == [] then []
    else (if list[0].key == key then [] else [list[0]]) + RemoveKey(list[1..], key)
  }

  /** `toggleSaveBook`'s new list: every entry with the book's key removed when
      there is one, otherwise the book appended at the end. */
  function Toggle(list: seq<Book>, book: Book): (r: seq<Book>)
    ensures HasKey(list, book.key) ==> forall b :: b in r <==> b in list && b.key != book.key
    ensures !HasKey(list, book.key) ==> r == list + [book]
  {
    if HasKey(list, book.key) then RemoveKey(list, book.key) else list + [book]
  }

  /** Removal keeps the order of what stays: it distributes over concatenation. */
  lemma {:induction false} RemoveKeyConcat(a: seq<Book>, b: seq<Book>, key: Option<string>)
    ensures RemoveKey(a + b, key) == RemoveKey(a, key) + RemoveKey(b, key)
  {
    if a == [] {
      assert a + b == b;
    } else {
      assert (a + b)[1..] == a[1..] + b;
      RemoveKeyConcat(a[1..], b, key);
    }
  }

  /** Removing a key nobody has changes nothing. */
  lemma {:induction false} RemoveAbsentKey(list: seq<Book>, key: Option<string>)
    requires !HasKey(list, key)
    ensures RemoveKey(list, key) == list
  {
    if list != [] {
      assert !HasKey(list[1..], key) by {
        forall i | 0 <= i < |list[1..]| ensures list[1..][i].key != key {
          assert list[1..][i] == list[i + 1];
        }
      }
      RemoveAbsentKey(list[1..], key);
    }
  }

  /** After removing `gone`, a key is present exactly when it is another key
      that was present before. */
  lemma HasKeyAfterRemove(list: seq<Book>, gone: Option<string>, key: Option<string>)
    ensures HasKey(RemoveKey(list, gone), key) <==> key != gone && HasKey(list, key)
  {
    var r := RemoveKey(list, gone);
    if HasKey(r, key) {
      var i :| 0 <= i < |r| && r[i].key == key;
      assert r[i] in list;
      var j :| 0 <= j < |list| && list[j] == r[i];
    }
    if key != gone && HasKey(list, key) {
      var j :| 0 <= j < |list| && list[j].key == key;
      assert list[j] in r;
      var i :| 0 <= i < |r| && r[i] == list[j];
    }
  }

  /** A toggle flips whether the book's own key is saved and leaves every other
      key as it was. */
  lemma ToggleFlipsKey(list: seq<Book>, book: Book, key: Option<string>)
    ensures HasKey(Toggle(list, book), key) <==>
      if key == book.key then !HasKey(list, key) else HasKey(list, key)
  {
    if HasKey(list, book.key) {
      HasKeyAfterRemove(list, book.key, key);
    } else {
      var r := list + [book];
      assert r[|list|].key == book.key;
      if HasKey(list, key) {
        var i :| 0 <= i < |list| && list[i].key == key;
        assert r[i] == list[i];
      }
      if HasKey(r, key) && key != book.key {
        var i :| 0 <= i < |r| && r[i].key == key;
        assert i < |list| && list[i] == r[i];
      }
    }
  }

  /** Toggling the same book twice restores which keys are saved. */
  lemma ToggleTwiceKeys(list: seq<Book>, book: Book, key: Option<string>)
    ensures HasKey(Toggle(Toggle(list, book), book), key) <==> HasKey(list, key)
  {
    ToggleFlipsKey(list, book, key);
    ToggleFlipsKey(list, book, book.key);
    ToggleFlipsKey(Toggle(list, book), book, key);
  }

  /** Saving a book that was not saved and toggling it again gives back the
      very same list. */
  lemma ToggleTwiceUnsaved(list: seq<Book>, book: Book)
    requires !HasKey(list, book.key)
    ensures Toggle(Toggle(list, book), book) == list
  {
    var once := list + [book];
    assert once[|list|].key == book.key;
    RemoveKeyConcat(list, [book], book.key);
    RemoveAbsentKey(list, book.key);
  }

  /** A list is key-unique exactly when its tail is and its head's key does not recur. */
  lemma UniqueCons(list: seq<Book>)
    requires list != []
    ensures UniqueKeys(list) <==> UniqueKeys(list[1..]) && !HasKey(list[1..], list[0].key)
  {
    var tail := list[1..];
    if UniqueKeys(list) {
      forall i, j | 0 <= i < j < |tail| ensures tail[i].key != tail[j].key {
        assert tail[i] == list[i + 1] && tail[j] == list[j + 1];
      }
    }
    if UniqueKeys(tail) && !HasKey(tail, list[0].key) {
      forall i, j | 0 <= i < j < |list| ensures list[i].key != list[j].key {
        assert list[j] == tail[j - 1];
        if i > 0 {
          assert list[i] == tail[i - 1];
        }
      }
    }
  }

  lemma {:induction false} RemoveKeyKeepsUnique(list: seq<Book>, key: Option<string>)
    requires UniqueKeys(list)
    ensures UniqueKeys(RemoveKey(list, key))
  {
    if list != [] {
      var tail := list[1..];
      UniqueCons(list);
      RemoveKeyKeepsUnique(tail, key);
      var rest := RemoveKey(tail, key);
      if list[0].key != key {
        HasKeyAfterRemove(tail, key, list[0].key);
        var r := [list[0]] + rest;
        assert r[1..] == rest;
        UniqueCons(r);
      } else {
        assert RemoveKey(list, key) == rest;
      }
    }
  }

  /** A saved list without duplicate keys still has none after a toggle. */
  lemma ToggleKeepsUnique(list: seq<Book>, book: Book)
    requires UniqueKeys(list)
    ensures UniqueKeys(Toggle(list, book))
  {
    if HasKey(list, book.key) {
      RemoveKeyKeepsUnique(list, book.key);
    } else {
      var r := list + [book];
      forall i, j | 0 <= i < j < |r| ensures r[i].key != r[j].key {
        assert r[i] == list[i];
        if j == |list| {
          assert r[j] == book;
        } else {
          assert r[j] == list[j];
        }
      }
    }
  }
}
