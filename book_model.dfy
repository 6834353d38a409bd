/**
 * The comment, book and genre schemas of bookModel.js as validity predicates:
 * what a document must satisfy for `save()` (or an update run with
 * `runValidators`) to accept it, and the unique indexes on `isbn` and `name`.
 * Prices are integers (the schema's Number is not modelled as floating point).
 */
module BookModel {
  import opened Common

  datatype BookComment = BookComment(id: Id, rating: Option<int>, comment: Option<string>, author: Option<string>)

  datatype Book = Book(
    isbn: Option<string>,
    title: Option<string>,
    subTitle: Option<string>,
    publishDate: Option<Date>,
    publisher: Option<string>,
    pages: Option<int>,
    price: Option<int>,
    description: Option<string>,
    website: Option<string>,
    comments: seq<BookComment>,
    genre: Option<Id>)

  datatype Genre = Genre(name: Option<string>)

  /** rating is a required number in [1, 5]; comment and author are required strings. */
  predicate ValidComment(c: BookComment)
  {
    c.rating.Some? && 1 <= c.rating.value <= 5 && RequiredString(c.comment) && RequiredString(c.author)
  }

  /** `min: 0` on an optional number. */
  predicate AtLeastZero(n: Option<int>)
  {
    n.None? || n.value >= 0
  }

  /** isbn, title and publish_date are required; pages and price are at least 0; every comment is valid. */
  predicate ValidBook(b: Book)
  {
    && RequiredString(b.isbn)
    && RequiredString(b.title)
    && b.publishDate.Some?
    && AtLeastZero(b.pages)
    && AtLeastZero(b.price)
    && forall k :: 0 <= k < |b.comments| ==> ValidComment(b.comments[k])
  }

  /** name is required. */
  predicate ValidGenre(g: Genre)
  {
    RequiredString(g.name)
  }

  /** The unique index on isbn. */
  predicate UniqueIsbns(books: map<Id, Book>)
  {
    forall a, b :: a in books && b in books && a != b ==> books[a].isbn != books[b].isbn
  }

  /** The unique index on a genre's name. */
  predicate UniqueGenreNames(genres: map<Id, Genre>)
  {
    forall a, b :: a in genres && b in genres && a != b ==> genres[a].name != genres[b].name
  }
}
