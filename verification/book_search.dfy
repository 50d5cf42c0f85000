/** The catalog screen's client-side search over the books already fetched
    (`filteredBooks`, `sortedBooks` and `displayBooks` in
    src/screens/Category_wise_Books.js): a case-insensitive substring filter on
    title, author and ISBN, then a stable re-ranking that puts title matches first. */
module BookSearch {
  import opened Wrappers
  import opened Seqs
  import opened Text
  import opened Api

  /** `field?.toLowerCase().includes(q)` for an already lower-cased `q`; a
      missing field never matches. */
  predicate FieldMatches(field: Option<string>, q: string) {
    field.Some? && Contains(ToLower(field.value), q)
  }

  predicate TitleMatches(b: Book, query: string) {
    FieldMatches(b.title, ToLower(query))
  }

  predicate AuthorMatches(b: Book, query: string) {
    exists i | 0 <= i < |b.authors| :: Contains(ToLower(AuthorText(b.authors[i])), ToLower(query))
  }

  predicate IsbnMatches(b: Book, query: string) {
    FieldMatches(b.isbn, ToLower(query))
  }

  /** The predicate handed to `books.filter`. */
  predicate Matches(b: Book, query: string) {
    TitleMatches(b, query) || AuthorMatches(b, query) || IsbnMatches(b, query)
  }

  function MatchTest(query: string): Book -> bool {
    b => Matches(b, query)
  }

  function TitleTest(query: string): Book -> bool {
    b => TitleMatches(b, query)
  }

  function OtherTest(query: string): Book -> bool {
    b => !TitleMatches(b, query)
  }

  /** Books that match other than by title: by author or ISBN only. */
  function OtherMatchTest(query: string): Book -> bool {
    b => Matches(b, query) && !TitleMatches(b, query)
  }

  /** `filteredBooks`: exactly the matching books, taken from the server list
      without inventing or duplicating any; `DisplayIsTitleThenOtherMatches`
      states their order. */
  function FilteredBooks(books: seq<Book>, query: string): (r: seq<Book>)
    ensures forall i :: 0 <= i < |r| ==> Matches(r[i], query)
    ensures forall i :: 0 <= i < |books| && Matches(books[i], query) ==> books[i] in r
    ensures multiset(r) <= multiset(books)
  {
    var r := Filter(books, MatchTest(query));
    assert forall i :: 0 <= i < |r| ==> MatchTest(query)(r[i]);
    FilterSubMultiset(books, MatchTest(query));
    r
  }

  /** 1 when the lower-cased title includes the lower-cased query, else 0. */
  function TitleFlag(b: Book, query: string): int {
    if TitleMatches(b, query) then 1 else 0
  }

  /** The comparator handed to `sort`: a negative value puts `a` before `b`. */
  function Compare(a: Book, b: Book, query: string): int {
    TitleFlag(b, query) - TitleFlag(a, query)
  }

  /** Stable insertion of `x` behind every element that does not compare
      greater than it. */
  function Insert(sorted: seq<Book>, x: Book, query: string): seq<Book> {
    if sorted == [] || Compare(sorted[|sorted| - 1], x, query) <= 0 then sorted + [x]
    else
      Insert(sorted[..|sorted| - 1], x, query) + [sorted[|sorted| - 1]]
  }

  /** `sortedBooks = [...filteredBooks].sort(compare)`. ECMAScript requires
      `sort` to be stable, and a stable sort under a consistent comparator has a
      single possible result, which insertion sort computes. */
  function SortedBooks(books: seq<Book>, query: string): seq<Book> {
    if books == [] then []
    else Insert(SortedBooks(books[..|books| - 1], query), books[|books| - 1], query)
  }

  /** `displayBooks`: the server list untouched for an empty query, otherwise
      the matches ranked title-first. */
  function DisplayBooks(books: seq<Book>, searchQuery: string): seq<Book> {
    if searchQuery == "" then books
    else SortedBooks(FilteredBooks(books, searchQuery), searchQuery)
  }

  /** A book without a title match is inserted at the very end of a
      title-first list. */
  lemma InsertOtherAtEnd(a: seq<Book>, b: seq<Book>, x: Book, query: string)
    requires forall i :: 0 <= i < |a| ==> TitleMatches(a[i], query)
    requires forall i :: 0 <= i < |b| ==> !TitleMatches(b[i], query)
    requires !TitleMatches(x, query)
    ensures Insert(a + b, x, query) == a + b + [x]
  {
    if a + b != [] {
      var last := (a + b)[|a + b| - 1];
      assert TitleFlag(last, query) >= TitleFlag(x, query) by {
        if b == [] {
          assert last == a[|a| - 1];
        } else {
          assert last == b[|b| - 1];
        }
      }
      assert Compare(last, x, query) <= 0;
    }
  }

  /** A title match is inserted behind the title group of a title-first
      list, in front of every other book. */
  lemma {:induction false} InsertTitleBehindGroup(a: seq<Book>, b: seq<Book>, x: Book, query: string)
    requires forall i :: 0 <= i < |a| ==> TitleMatches(a[i], query)
    requires forall i :: 0 <= i < |b| ==> !TitleMatches(b[i], query)
    requires TitleMatches(x, query)
    ensures Insert(a + b, x, query) == a + [x] + b
    decreases |b|
  {
    if b == [] {
      assert a + b == a;
      if a != [] {
        assert Compare(a[|a| - 1], x, query) == 0;
      }
    } else {
      var b', y := b[..|b| - 1], b[|b| - 1];
      assert (a + b)[..|a + b| - 1] == a + b';
      assert (a + b)[|a + b| - 1] == y;
      assert Compare(y, x, query) == 1;
      assert forall i :: 0 <= i < |b'| ==> b'[i] == b[i];
      InsertTitleBehindGroup(a, b', x, query);
      assert a + [x] + b' + [y] == a + [x] + b;
    }
  }

  /** Inserting into a title-first list keeps it title-first: a title match
      lands at the end of the title group, any other book at the very end. */
  lemma InsertIntoPartition(a: seq<Book>, b: seq<Book>, x: Book, query: string)
    requires forall i :: 0 <= i < |a| ==> TitleMatches(a[i], query)
    requires forall i :: 0 <= i < |b| ==> !TitleMatches(b[i], query)
    ensures Insert(a + b, x, query) == if TitleMatches(x, query) then a + [x] + b else a + b + [x]
  {
    if TitleMatches(x, query) {
      InsertTitleBehindGroup(a, b, x, query);
    } else {
      InsertOtherAtEnd(a, b, x, query);
    }
  }

  /** The comparator sort is the stable partition: every title match, in
      order, then every other book, in order. */
  lemma {:induction false} SortedIsTitlePartition(books: seq<Book>, query: string)
    ensures SortedBooks(books, query) == Filter(books, TitleTest(query)) + Filter(books, OtherTest(query))
  {
    if books != [] {
      var init, x := books[..|books| - 1], books[|books| - 1];
      assert books == init + [x];
      SortedIsTitlePartition(init, query);
      var a, b := Filter(init, TitleTest(query)), Filter(init, OtherTest(query));
      assert SortedBooks(books, query) == Insert(a + b, x, query);
      TitleGroupMatches(a, init, query);
      OtherGroupMisses(b, init, query);
      InsertIntoPartition(a, b, x, query);
      FilterSnoc(init, x, TitleTest(query));
      FilterSnoc(init, x, OtherTest(query));
      if TitleMatches(x, query) {
        assert Filter(books, TitleTest(query)) == a + [x];
        assert Filter(books, OtherTest(query)) == b;
      } else {
        assert Filter(books, TitleTest(query)) == a;
        assert Filter(books, OtherTest(query)) == b + [x];
        assert a + b + [x] == a + (b + [x]);
      }
    }
  }

  lemma TitleGroupMatches(a: seq<Book>, s: seq<Book>, query: string)
    requires a == Filter(s, TitleTest(query))
    ensures forall i :: 0 <= i < |a| ==> TitleMatches(a[i], query)
  {
    assert forall i :: 0 <= i < |a| ==> TitleTest(query)(a[i]);
  }

  lemma OtherGroupMisses(b: seq<Book>, s: seq<Book>, query: string)
    requires b == Filter(s, OtherTest(query))
    ensures forall i :: 0 <= i < |b| ==> !TitleMatches(b[i], query)
  {
    assert forall i :: 0 <= i < |b| ==> OtherTest(query)(b[i]);
  }

  /** In the ranked list no title match comes after a book that matched only
      by author or ISBN. */
  lemma TitleMatchesComeFirst(books: seq<Book>, query: string)
    ensures var r := SortedBooks(books, query);
      forall i, j :: 0 <= i < j < |r| && TitleMatches(r[j], query) ==> TitleMatches(r[i], query)
  {
    SortedIsTitlePartition(books, query);
    var a, b := Filter(books, TitleTest(query)), Filter(books, OtherTest(query));
    assert forall i :: 0 <= i < |a| ==> TitleTest(query)(a[i]);
    assert forall i :: 0 <= i < |b| ==> OtherTest(query)(b[i]);
  }

  /** Ranking keeps the relative order inside each group: the title matches
      appear in the same order as before, and so do the other books. */
  lemma RankingIsStable(books: seq<Book>, query: string)
    ensures Filter(SortedBooks(books, query), TitleTest(query)) == Filter(books, TitleTest(query))
    ensures Filter(SortedBooks(books, query), OtherTest(query)) == Filter(books, OtherTest(query))
  {
    SortedIsTitlePartition(books, query);
    var a, b := Filter(books, TitleTest(query)), Filter(books, OtherTest(query));
    assert forall i :: 0 <= i < |a| ==> TitleTest(query)(a[i]);
    assert forall i :: 0 <= i < |b| ==> OtherTest(query)(b[i]);
    FilterAppend(a, b, TitleTest(query));
    FilterAppend(a, b, OtherTest(query));
    FilterAllPass(a, TitleTest(query));
    FilterNonePass(b, TitleTest(query));
    FilterNonePass(a, OtherTest(query));
    FilterAllPass(b, OtherTest(query));
    assert a + [] == a;
    assert [] + b == b;
  }

  /** Ranking is a permutation: it loses, invents and duplicates nothing. */
  lemma SortedIsPermutation(books: seq<Book>, query: string)
    ensures multiset(SortedBooks(books, query)) == multiset(books)
  {
    SortedIsTitlePartition(books, query);
    FilterSplitPermutation(books, TitleTest(query), OtherTest(query));
  }

  /** With an empty query the list is shown exactly as the server sent it;
      otherwise every shown book matches, and every matching book is shown. */
  lemma DisplayShowsExactlyTheMatches(books: seq<Book>, searchQuery: string)
    ensures DisplayBooks(books, "") == books
    ensures var r := DisplayBooks(books, searchQuery);
      searchQuery != "" ==>
        && (forall i :: 0 <= i < |r| ==> Matches(r[i], searchQuery))
        && (forall i :: 0 <= i < |books| && Matches(books[i], searchQuery) ==> books[i] in r)
  {
    if searchQuery != "" {
      var filtered := FilteredBooks(books, searchQuery);
      var r := SortedBooks(filtered, searchQuery);
      SortedIsPermutation(filtered, searchQuery);
      forall i | 0 <= i < |r| ensures Matches(r[i], searchQuery) {
        assert r[i] in multiset(filtered);
      }
      forall i | 0 <= i < |books| && Matches(books[i], searchQuery) ensures books[i] in r {
        assert books[i] in multiset(r);
      }
    }
  }

  /** End to end, with a non-empty query the screen shows the books whose title
      matches, in server order, followed by the books that match only by author
      or ISBN, in server order: books A, B, C where only A and C match by
      title show as A, C, B. */
  lemma DisplayIsTitleThenOtherMatches(books: seq<Book>, searchQuery: string)
    requires searchQuery != ""
    ensures DisplayBooks(books, searchQuery)
      == Filter(books, TitleTest(searchQuery)) + Filter(books, OtherMatchTest(searchQuery))
  {
    var filtered := Filter(books, MatchTest(searchQuery));
    SortedIsTitlePartition(filtered, searchQuery);
    FilterOfFilter(books, MatchTest(searchQuery), TitleTest(searchQuery), TitleTest(searchQuery));
    FilterOfFilter(books, MatchTest(searchQuery), OtherTest(searchQuery), OtherMatchTest(searchQuery));
  }

  /** With a non-empty query the displayed list is a rearrangement of exactly
      the matching books, nothing dropped and nothing duplicated. */
  lemma DisplayIsPermutationOfMatches(books: seq<Book>, searchQuery: string)
    requires searchQuery != ""
    ensures multiset(DisplayBooks(books, searchQuery)) == multiset(FilteredBooks(books, searchQuery))
  {
    SortedIsPermutation(FilteredBooks(books, searchQuery), searchQuery);
  }
}
