/** The shapes exchanged with the book-rental backend: book records, query
    parameter objects and the paged book list the `/api/v1/Books` endpoints return. */
module Api {
  import opened Wrappers

  /** One entry of a book's `authors` array: either an object with a `name`
      or a bare string (the screens read `author.name || author`). */
  datatype Author = Named(name: string) | Bare(text: string)

  function AuthorText(a: Author): string {
    match a
    case Named(n) => n
    case Bare(t) => t
  }

  /** A book record as the catalog endpoints return it. A missing `authors`
      array behaves like an empty one everywhere it is read. */
  datatype Book = Book(
    id: int,
    title: Option<string>,
    authors: seq<Author>,
    isbn: Option<string>,
    isAvailable: bool)

  /** A value in a request's query-parameter object. `Undefined` stands for a
      key whose value is `undefined` (a missing route parameter). */
  datatype Param = Int(i: int) | Str(s: string) | Bool(b: bool) | Undefined

  /** The query-parameter names the screens send; each constructor is
      named after the parameter it stands for. */
  datatype Key = page | pageSize | categoryId | title | author | isbn | search
    | bestSellers | newReleases | availableOnly | sortBy | sortOrder | status | isAvailable

  /** A query-parameter object: a key that is not in the map is not sent. */
  type Params = map<Key, Param>

  function OptionalInt(x: Option<int>): Param {
    match x
    case Some(v) => Int(v)
    case None => Undefined
  }

  /** The body of a paged book-list response: `{data, totalPages, totalCount}`,
      each of which may be missing. */
  datatype BooksPage = BooksPage(data: Option<seq<Book>>, totalPages: Option<int>, totalCount: Option<int>)

  /** `data || []` */
  function PageBooks(p: BooksPage): seq<Book> {
    p.data.GetOr([])
  }

  /** `n || 1`: a missing or zero count falls back to 1. */
  function OrOne(n: Option<int>): (r: int)
    ensures r != 0
    ensures n.Some? && n.value != 0 ==> r == n.value
    ensures n.None? || n.value == 0 ==> r == 1
  {
    if n.None? || n.value == 0 then 1 else n.value
  }

  /** `n || 0`: a missing count falls back to 0. */
  function OrZero(n: Option<int>): int {
    if n.None? then 0 else n.value
  }
}
