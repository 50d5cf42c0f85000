/** The home screen (src/screens/Home.js): three independently paged book
    carousels and the per-book like toggle. */
module Home {
  import opened Wrappers
  import opened Api

  /** The three carousels; each is fed from a fixed category. */
  datatype Section = MostPopular | BestSelling | Recommended

  function CategoryOf(section: Section): int {
    match section
    case MostPopular => 10
    case BestSelling => 11
    case Recommended => 12
  }

  /** The page size of every carousel request. */
  const CarouselPageSize := 5

  /** One carousel's list together with its page counter, `hasMore` flag and
      loading flag. */
  datatype Carousel = Carousel(books: seq<Book>, page: int, hasMore: bool, loading: bool)

  const InitialCarousel := Carousel([], 1, true, false)

  /** The query of a `/api/v1/Books` carousel request. */
  function CarouselParams(categoryId: int, page: int): Params {
    map[Key.page := Int(page), Key.pageSize := Int(CarouselPageSize),
        Key.categoryId := Int(categoryId), Key.isAvailable := Bool(true)]
  }

  /** Every carousel request asks for one page of five available books of
      one category, and nothing else. */
  lemma CarouselParamsShape(categoryId: int, page: int)
    ensures var r := CarouselParams(categoryId, page);
      && r.Keys == {Key.page, Key.pageSize, Key.categoryId, Key.isAvailable}
      && r[Key.page] == Int(page) && r[Key.categoryId] == Int(categoryId)
      && r[Key.pageSize] == Int(CarouselPageSize) && r[Key.isAvailable] == Bool(true)
  {
  }

  /** The truthiness of `likedBooks[id]`; a missing entry is not liked. */
  predicate Liked(likes: map<int, bool>, id: int) {
    id in likes && likes[id]
  }

  /** `{...prev, [bookId]: !prev[bookId]}`: exactly `id` flips; every other
      entry is kept as it was. */
  function ToggledLike(likes: map<int, bool>, id: int): (r: map<int, bool>)
    ensures r.Keys == likes.Keys + {id}
    ensures Liked(r, id) <==> !Liked(likes, id)
    ensures forall k :: k in likes && k != id ==> r[k] == likes[k]
  {
    likes[id := !Liked(likes, id)]
  }

  /** Liking twice restores every book's liked state. */
  lemma ToggleLikeTwice(likes: map<int, bool>, id: int, k: int)
    ensures Liked(ToggledLike(ToggledLike(likes, id), id), k) == Liked(likes, k)
  {
    var once := ToggledLike(likes, id);
    if k != id && k in likes {
      assert once[k] == likes[k];
    }
  }

  class HomeScreen {
    var mostPopular: Carousel
    var bestSelling: Carousel
    var recommended: Carousel
    var likedBooks: map<int, bool>

    /** Every page counter starts at 1 and only ever grows. */
    ghost predicate Valid()
      reads this
    {
      forall s :: Get(s).page >= 1
    }

    /** The carousel state of `section`. */
    function Get(section: Section): Carousel
      reads this
    {
      match section
      case MostPopular => mostPopular
      case BestSelling => bestSelling
      case Recommended => recommended
    }

    constructor ()
      ensures Valid()
      ensures forall s :: Get(s) == InitialCarousel
      ensures likedBooks == map[]
    {
      mostPopular := InitialCarousel;
      bestSelling := InitialCarousel;
      recommended := InitialCarousel;
      likedBooks := map[];
    }

    /** Stores `c` as the state of `section` and of no other carousel. */
    method Put(section: Section, c: Carousel)
      modifies this
      ensures Get(section) == c
      ensures forall s :: s != section ==> Get(s) == old(Get(s))
      ensures likedBooks == old(likedBooks)
    {
      match section {
        case MostPopular => mostPopular := c;
        case BestSelling => bestSelling := c;
        case Recommended => recommended := c;
      }
    }

    /** `fetchBooks(categoryId, page, section)`: nothing without a token.
        Otherwise one request of five available books; page 1 replaces the
        section's list and later pages append, and `hasMore` records whether
        a full page came back. Only `section` changes, and its page counter
        is left to the caller. */
    method FetchBooks(categoryId: int, page: int, section: Section, hasToken: bool, outcome: Outcome<BooksPage>)
      returns (request: Option<Params>)
      requires Valid()
      modifies this
      ensures Valid()
      ensures !hasToken ==> request.None? && unchanged(this)
      ensures hasToken ==> request == Some(CarouselParams(categoryId, page))
      ensures hasToken ==> !Get(section).loading && Get(section).page == old(Get(section).page)
      ensures forall s :: s != section ==> Get(s) == old(Get(s))
      ensures likedBooks == old(likedBooks)
      ensures hasToken && outcome.Succeeded? ==>
        var newBooks := PageBooks(outcome.response);
        && Get(section).books == (if page == 1 then newBooks else old(Get(section).books) + newBooks)
        && Get(section).hasMore == (|newBooks| == CarouselPageSize)
      ensures outcome.Failed? ==>
        Get(section).books == old(Get(section).books) && Get(section).hasMore == old(Get(section).hasMore)
    {
      if !hasToken {
        return None;
      }
      var c := Get(section);
      Put(section, c.(loading := true));
      request := Some(CarouselParams(categoryId, page));
      match outcome {
        case Succeeded(response) =>
          var newBooks := PageBooks(response);
          var books := if page == 1 then newBooks else c.books + newBooks;
          c := c.(books := books, hasMore := |newBooks| == CarouselPageSize);
        case Failed =>
      }
      Put(section, c.(loading := false));
    }

    /** The initial effect: with a token, page 1 of each carousel from its
        own category. */
    method LoadAll(hasToken: bool, popular: Outcome<BooksPage>, selling: Outcome<BooksPage>, recommendedOutcome: Outcome<BooksPage>)
      returns (requests: seq<Params>)
      requires Valid()
      modifies this
      ensures Valid()
      ensures !hasToken ==> requests == [] && unchanged(this)
      ensures hasToken ==> requests == [CarouselParams(10, 1), CarouselParams(11, 1), CarouselParams(12, 1)]
      ensures hasToken ==> forall s :: Get(s).page == old(Get(s).page) && !Get(s).loading
      ensures hasToken && popular.Succeeded? ==>
        && mostPopular.books == PageBooks(popular.response)
        && mostPopular.hasMore == (|PageBooks(popular.response)| == CarouselPageSize)
      ensures hasToken && selling.Succeeded? ==>
        && bestSelling.books == PageBooks(selling.response)
        && bestSelling.hasMore == (|PageBooks(selling.response)| == CarouselPageSize)
      ensures hasToken && recommendedOutcome.Succeeded? ==>
        && recommended.books == PageBooks(recommendedOutcome.response)
        && recommended.hasMore == (|PageBooks(recommendedOutcome.response)| == CarouselPageSize)
      ensures popular.Failed? ==>
        mostPopular.books == old(mostPopular.books) && mostPopular.hasMore == old(mostPopular.hasMore)
      ensures selling.Failed? ==>
        bestSelling.books == old(bestSelling.books) && bestSelling.hasMore == old(bestSelling.hasMore)
      ensures recommendedOutcome.Failed? ==>
        recommended.books == old(recommended.books) && recommended.hasMore == old(recommended.hasMore)
      ensures likedBooks == old(likedBooks)
    {
      if !hasToken {
        return [];
      }
      var first := FetchBooks(10, 1, MostPopular, hasToken, popular);
      var second := FetchBooks(11, 1, BestSelling, hasToken, selling);
      var third := FetchBooks(12, 1, Recommended, hasToken, recommendedOutcome);
      requests := [first.value, second.value, third.value];
    }

    /** `handleEndReached(section)`: when the section has more and is not
        loading, its page advances by exactly one (even without a token) and
        the next page of its own category is fetched and appended. */
    method HandleEndReached(section: Section, hasToken: bool, outcome: Outcome<BooksPage>)
      returns (request: Option<Params>)
      requires Valid()
      modifies this
      ensures Valid()
      ensures !old(Get(section).hasMore) || old(Get(section).loading) ==> request.None? && unchanged(this)
      ensures old(Get(section).hasMore) && !old(Get(section).loading) ==>
        && Get(section).page == old(Get(section).page) + 1
        && (hasToken ==> request == Some(CarouselParams(CategoryOf(section), Get(section).page)))
        && (!hasToken ==> request.None? && Get(section) == old(Get(section)).(page := Get(section).page))
      ensures request.Some? ==> !Get(section).loading
      ensures request.Some? && outcome.Succeeded? ==>
        && Get(section).books == old(Get(section).books) + PageBooks(outcome.response)
        && Get(section).hasMore == (|PageBooks(outcome.response)| == CarouselPageSize)
      ensures request.Some? && outcome.Failed? ==>
        Get(section).books == old(Get(section).books) && Get(section).hasMore
      ensures forall s :: s != section ==> Get(s) == old(Get(s))
      ensures likedBooks == old(likedBooks)
    {
      var c := Get(section);
      if c.hasMore && !c.loading {
        var nextPage := c.page + 1;
        Put(section, c.(page := nextPage));
        request := FetchBooks(CategoryOf(section), nextPage, section, hasToken, outcome);
      } else {
        request := None;
      }
    }

    /** `toggleLike(bookId)`. */
    method ToggleLike(bookId: int)
      modifies this`likedBooks
      ensures likedBooks == ToggledLike(old(likedBooks), bookId)
    {
      likedBooks := ToggledLike(likedBooks, bookId);
    }
  }
}
