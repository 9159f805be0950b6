/** The live-suggestion title pipeline of src/components/Navbar.js:
    `docs.map((d) => d.title).filter((v, i, a) => v && a.indexOf(v) === i).slice(0, 7)`. */
module Suggestions {
  import opened Optional
  import opened Catalog

  const MaxSuggestions := 7

  /** `docs.map((d) => d.title)` */
  function Titles(docs: seq<Book>): (ts: seq<Option<string>>)
    ensures |ts| == |docs| && forall i :: 0 <= i < |docs| ==> ts[i] == docs[i].title
  {
    if docs == [] then [] else [docs[0].title] + Titles(docs[1..])
  }

  /** Whether a title is truthy: present and not the empty string. */
  predicate Truthy(v: Option<string>) {
    v.Some? && v.value != ""
  }

  /** `a.indexOf(v)`: the first position of `v`, or -1 when it does not occur. */
  function IndexOf<T(==)>(a: seq<T>, v: T): (i: int)
    ensures -1 <= i < |a|
    ensures i == -1 <==> v !in a
    ensures i >= 0 ==> a[i] == v && forall k :: 0 <= k < i ==> a[k] != v
  {
    if a == [] then -1
    else if a[0] == v then 0
    else var j := IndexOf(a[1..], v); if j == -1 then -1 else j + 1
  }

  /** The filter, applied to positions `i..` of `a`: keep a title when it is truthy
      and this is its first occurrence. It keeps at most one title per position. */
  function KeepFirstTruthy(a: seq<Option<string>>, i: nat): (r: seq<string>)
    requires i <= |a|
    ensures |r| <= |a| - i
    decreases |a| - i
  {
    if i == |a| then []
    else (if Truthy(a[i]) && IndexOf(a, a[i]) == i then [a[i].value] else []) + KeepFirstTruthy(a, i + 1)
  }

  /** Every entry of `r` is non-empty and first occurs in `a` at `i` or later. */
  predicate FirstOccurFrom(a: seq<Option<string>>, r: seq<string>, i: nat) {
    forall p :: 0 <= p < |r| ==> r[p] != "" && i <= IndexOf(a, Some(r[p]))
  }

  /** The entries of `r` come in the order in which they first occur in `a`. */
  predicate InFirstOccurrenceOrder(a: seq<Option<string>>, r: seq<string>) {
    forall p, q :: 0 <= p < q < |r| ==> IndexOf(a, Some(r[p])) < IndexOf(a, Some(r[q]))
  }

  /** What the filter keeps from positions `i..` is non-empty and first occurs at
      `i` or later. */
  lemma {:induction false} KeptFirstOccurFrom(a: seq<Option<string>>, i: nat)
    requires i <= |a|
    ensures FirstOccurFrom(a, KeepFirstTruthy(a, i), i)
    decreases |a| - i
  {
    if i < |a| {
      KeptFirstOccurFrom(a, i + 1);
      var rest := KeepFirstTruthy(a, i + 1);
      if Truthy(a[i]) && IndexOf(a, a[i]) == i {
        var r := [a[i].value] + rest;
        assert Some(r[0]) == a[i];
        forall p | 0 < p < |r|
          ensures r[p] != "" && i < IndexOf(a, Some(r[p]))
        {
          assert r[p] == rest[p - 1];
        }
      }
    }
  }

  /** What the filter keeps comes in order of first occurrence. */
  lemma {:induction false} KeptInOrder(a: seq<Option<string>>, i: nat)
    requires i <= |a|
    ensures InFirstOccurrenceOrder(a, KeepFirstTruthy(a, i))
    decreases |a| - i
  {
    if i < |a| {
      KeptInOrder(a, i + 1);
      KeptFirstOccurFrom(a, i + 1);
      if Truthy(a[i]) && IndexOf(a, a[i]) == i {
        assert Some(a[i].value) == a[i];
        ConsInOrder(a, a[i].value, KeepFirstTruthy(a, i + 1), i);
      }
    }
  }

  /** A title first occurring at `i`, put before titles in order that first occur
      after `i`, gives titles in order. */
  lemma ConsInOrder(a: seq<Option<string>>, x: string, rest: seq<string>, i: nat)
    requires IndexOf(a, Some(x)) == i
    requires FirstOccurFrom(a, rest, i + 1) && InFirstOccurrenceOrder(a, rest)
    ensures InFirstOccurrenceOrder(a, [x] + rest)
  {
    var r := [x] + rest;
    forall p, q | 0 <= p < q < |r|
      ensures IndexOf(a, Some(r[p])) < IndexOf(a, Some(r[q]))
    {
      assert r[q] == rest[q - 1];
      if p > 0 {
        assert r[p] == rest[p - 1];
      }
    }
  }

  /** Every truthy title whose first occurrence is at `i` or later is kept. */
  lemma {:induction false} KeptComplete(a: seq<Option<string>>, i: nat)
    requires i <= |a|
    ensures forall k :: i <= k < |a| && Truthy(a[k]) && IndexOf(a, a[k]) == k ==> a[k].value in KeepFirstTruthy(a, i)
    decreases |a| - i
  {
    if i < |a| {
      KeptComplete(a, i + 1);
    }
  }

  /** The suggestions for a parsed `docs` array: the filtered titles cut to seven. */
  function SuggestionTitles(docs: seq<Book>): (r: seq<string>)
    ensures |r| <= MaxSuggestions
  {
    var kept := KeepFirstTruthy(Titles(docs), 0);
    if |kept| <= MaxSuggestions then kept else kept[..MaxSuggestions]
  }
}

/** What the suggestion pipeline guarantees about the list it produces. */
module SuggestionProperties {
  import opened Optional
  import opened Catalog
  import opened Suggestions

  /** Where a title first occurs among the docs' titles. */
  function FirstTitleIndex(docs: seq<Book>, title: string): int {
    IndexOf(Titles(docs), Some(title))
  }

  /** No suggestion is empty, and they come in the order in which the titles
      first occur among the docs. */
  lemma SuggestionsOrdered(docs: seq<Book>)
    ensures var r := SuggestionTitles(docs);
      && (forall p :: 0 <= p < |r| ==> r[p] != "")
      && (forall p, q :: 0 <= p < q < |r| ==> FirstTitleIndex(docs, r[p]) < FirstTitleIndex(docs, r[q]))
  {
    var kept := KeepFirstTruthy(Titles(docs), 0);
    KeptFirstOccurFrom(Titles(docs), 0);
    KeptInOrder(Titles(docs), 0);
    var r := SuggestionTitles(docs);
    assert r == kept[..|r|];
    forall p, q | 0 <= p < q < |r|
      ensures FirstTitleIndex(docs, r[p]) < FirstTitleIndex(docs, r[q])
    {
      assert r[p] == kept[p] && r[q] == kept[q];
    }
    forall p | 0 <= p < |r| ensures r[p] != "" {
      assert r[p] == kept[p];
    }
  }

  /** No title is suggested twice. */
  lemma SuggestionsDistinct(docs: seq<Book>)
    ensures var r := SuggestionTitles(docs);
      forall p, q :: 0 <= p < q < |r| ==> r[p] != r[q]
  {
    SuggestionsOrdered(docs);
  }

  /** Every suggestion is the title of some doc. */
  lemma SuggestionsComeFromDocs(docs: seq<Book>)
    ensures var r := SuggestionTitles(docs);
      forall p :: 0 <= p < |r| ==> exists j :: 0 <= j < |docs| && docs[j].title == Some(r[p])
  {
    var a := Titles(docs);
    var kept := KeepFirstTruthy(a, 0);
    KeptFirstOccurFrom(a, 0);
    var r := SuggestionTitles(docs);
    assert r == kept[..|r|];
    forall p | 0 <= p < |r| ensures exists j :: 0 <= j < |docs| && docs[j].title == Some(r[p]) {
      assert r[p] == kept[p];
      var j := IndexOf(a, Some(r[p]));
      assert docs[j].title == a[j];
    }
  }

  /** A truthy title is left out only when the list is full of seven titles that
      all occur before it. */
  lemma SuggestionsComplete(docs: seq<Book>, j: nat)
    requires j < |docs| && Truthy(docs[j].title)
    ensures var r := SuggestionTitles(docs);
      docs[j].title.value !in r ==>
        |r| == MaxSuggestions &&
        forall p :: 0 <= p < |r| ==> FirstTitleIndex(docs, r[p]) < FirstTitleIndex(docs, docs[j].title.value)
  {
    var a := Titles(docs);
    var kept := KeepFirstTruthy(a, 0);
    var r := SuggestionTitles(docs);
    assert r == kept[..|r|];
    var t := docs[j].title;
    if t.value !in r {
      var m := IndexOf(a, t);
      assert a[j] == t;
      assert a[m] == t && IndexOf(a, a[m]) == m;
      KeptComplete(a, 0);
      KeptInOrder(a, 0);
      assert t.value in kept;
      LaterThanPrefix(a, kept, |r|, t.value);
    }
  }

  /** In a list ordered by first occurrence, an element beyond a prefix occurs
      after everything in that prefix. */
  lemma LaterThanPrefix(a: seq<Option<string>>, kept: seq<string>, n: nat, x: string)
    requires n <= |kept| && x in kept && x !in kept[..n]
    requires forall p, q :: 0 <= p < q < |kept| ==> IndexOf(a, Some(kept[p])) < IndexOf(a, Some(kept[q]))
    ensures n < |kept|
    ensures forall p :: 0 <= p < n ==> IndexOf(a, Some(kept[p])) < IndexOf(a, Some(x))
  {
    var q :| 0 <= q < |kept| && kept[q] == x;
  }
}
