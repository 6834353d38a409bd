/**
 * The book, genre and book-comment handlers of bookFunction.js over an
 * in-memory store: books and genres are maps from id to document.  Every
 * handler there wraps its work in try/catch, so an error thrown by `save()`
 * (a failed validation) is answered 500, except in `handleUpdateBook`, which
 * answers a `ValidationError` with 400.
 */
module Books {
  import opened Common
  import opened ArrayOps
  import opened BookModel

  const ISBN_EXISTS: string := "ISBN already exists"
  const INVALID_GENRE: string := "Invalid genre ID"
  const SERVER_FAILURE: string := "Internal server error"
  const NO_BOOKS_MATCH: string := "Can not find book"
  const BOOK_NOT_FOUND: string := "Book not found"
  const GENRE_EXISTS: string := "Genre already exists"
  const GENRE_NOT_FOUND: string := "Genre not found"
  const COMMENT_NOT_FOUND: string := "Comment not found"
  const VALIDATION_FAILED: string := "Validation failed"

  /** The recognised query parameters of GET /books; `others` are all the rest. */
  datatype BookQuery = BookQuery(maxPrice: Option<int>, genre: Option<string>, others: map<string, string>)

  /**
   * The fields of a PUT /books/:id body; None is a field the body does not
   * supply.  Each supplied field is written with `$set`.
   */
  datatype BookPatch = BookPatch(
    isbn: Option<string>,
    title: Option<string>,
    subTitle: Option<string>,
    publishDate: Option<Date>,
    publisher: Option<string>,
    pages: Option<int>,
    price: Option<int>,
    description: Option<string>,
    website: Option<string>,
    comments: Option<seq<BookComment>>,
    genre: Option<Id>)

  /** The list `handleUpdateBook` computes and then never uses. */
  const ALLOWED_UPDATES: seq<string> :=
    ["title", "subTitle", "publisher", "pages", "price", "description", "website", "comments"]

  /** Some book other than `self` has this isbn (`self` may be a key absent from the store). */
  predicate IsbnHeldByOther(books: map<Id, Book>, self: Option<Id>, isbn: Option<string>)
  {
    exists id :: id in books && Some(id) != self && books[id].isbn == isbn
  }

  /** Some genre other than `self` has this name. */
  predicate NameHeldByOther(genres: map<Id, Genre>, self: Option<Id>, name: Option<string>)
  {
    exists id :: id in genres && Some(id) != self && genres[id].name == name
  }

  /** `Genre.exists({ _id: genre })`. */
  predicate GenreExists(genres: map<Id, Genre>, genre: Option<Id>)
  {
    genre.Some? && genre.value in genres
  }

  /** The Mongo filter built from the query: `price < maxPrice` and `genre ==` the query value. */
  predicate Matches(b: Book, q: BookQuery)
  {
    && (q.maxPrice.Some? ==> b.price.Some? && b.price.value < q.maxPrice.value)
    && (TruthyString(q.genre) ==> b.genre == q.genre)
  }

  /**
   * GET /books: the books whose price is strictly below a numeric `maxPrice`
   * and whose genre equals a non-empty `genre`; no match at all is a 404.
   */
  function ListBooks(books: map<Id, Book>, q: BookQuery): (r: Reply<map<Id, Book>>)
    ensures r.Success? || r == Failure(NOT_FOUND, NO_BOOKS_MATCH)
    ensures r.Failure? <==> forall id :: id in books ==> !Matches(books[id], q)
    ensures r.Success? ==> r.status == OK
    ensures r.Success? ==> forall id :: id in r.value <==>
      && id in books
      && (q.maxPrice.Some? ==> books[id].price.Some? && books[id].price.value < q.maxPrice.value)
      && (TruthyString(q.genre) ==> books[id].genre == q.genre)
    ensures r.Success? ==> forall id :: id in r.value ==> r.value[id] == books[id]
  {
    var found := map id | id in books && Matches(books[id], q) :: books[id];
    assert forall id :: id in books ==> (id in found <==> Matches(books[id], q));
    if found == map[] then Failure(NOT_FOUND, NO_BOOKS_MATCH)
    else Success(OK, found)
  }

  /** Query keys other than maxPrice and genre have no effect. */
  lemma ListIgnoresOtherKeys(books: map<Id, Book>, q: BookQuery, others: map<string, string>)
    ensures ListBooks(books, q.(others := others)) == ListBooks(books, q)
  {
    var q' := q.(others := others);
    assert forall id :: id in books ==> Matches(books[id], q') == Matches(books[id], q);
    assert (map id | id in books && Matches(books[id], q') :: books[id])
        == (map id | id in books && Matches(books[id], q) :: books[id]);
  }

  /** GET /books/:id. */
  function FindBookById(books: map<Id, Book>, id: Id): (r: Reply<Book>)
    ensures id !in books ==> r == Failure(NOT_FOUND, BOOK_NOT_FOUND)
    ensures id in books ==> r == Success(OK, books[id])
  {
    if id in books then Success(OK, books[id]) else Failure(NOT_FOUND, BOOK_NOT_FOUND)
  }

  /** Every supplied field passes the update validators. */
  predicate PatchValid(p: BookPatch)
  {
    && (p.isbn.Some? ==> RequiredString(p.isbn))
    && (p.title.Some? ==> RequiredString(p.title))
    && AtLeastZero(p.pages)
    && AtLeastZero(p.price)
    && (p.comments.Some? ==> forall k :: 0 <= k < |p.comments.value| ==> ValidComment(p.comments.value[k]))
  }

  /** `$set: updateData`: every supplied field replaces the stored one. */
  function ApplyPatch(b: Book, p: BookPatch): (r: Book)
  {
    Book(
      if p.isbn.Some? then p.isbn else b.isbn,
      if p.title.Some? then p.title else b.title,
      if p.subTitle.Some? then p.subTitle else b.subTitle,
      if p.publishDate.Some? then p.publishDate else b.publishDate,
      if p.publisher.Some? then p.publisher else b.publisher,
      if p.pages.Some? then p.pages else b.pages,
      if p.price.Some? then p.price else b.price,
      if p.description.Some? then p.description else b.description,
      if p.website.Some? then p.website else b.website,
      if p.comments.Some? then p.comments.value else b.comments,
      if p.genre.Some? then p.genre else b.genre)
  }

  /** The body keys `Object.keys(updateData)` lists, in schema order. */
  function SuppliedKeys(p: BookPatch): (keys: seq<string>)
  {
    (if p.isbn.Some? then ["isbn"] else []) +
    (if p.title.Some? then ["title"] else []) +
    (if p.subTitle.Some? then ["subTitle"] else []) +
    (if p.publishDate.Some? then ["publish_date"] else []) +
    (if p.publisher.Some? then ["publisher"] else []) +
    (if p.pages.Some? then ["pages"] else []) +
    (if p.price.Some? then ["price"] else []) +
    (if p.description.Some? then ["description"] else []) +
    (if p.website.Some? then ["website"] else []) +
    (if p.comments.Some? then ["comments"] else []) +
    (if p.genre.Some? then ["genre"] else [])
  }

  /**
   * The allow-list is not applied: an isbn or genre in the body is written
   * although neither is in `ALLOWED_UPDATES`.
   */
  lemma AllowListNotApplied(b: Book, p: BookPatch)
    ensures "isbn" !in ALLOWED_UPDATES && "genre" !in ALLOWED_UPDATES
    ensures p.isbn.Some? ==> ApplyPatch(b, p).isbn == p.isbn
    ensures p.genre.Some? ==> ApplyPatch(b, p).genre == p.genre
  {
  }

  /** The fields a patch does not supply keep their values. */
  lemma PatchKeepsUnsupplied(b: Book, p: BookPatch)
    ensures p.isbn.None? ==> ApplyPatch(b, p).isbn == b.isbn
    ensures p.title.None? ==> ApplyPatch(b, p).title == b.title
    ensures p.subTitle.None? ==> ApplyPatch(b, p).subTitle == b.subTitle
    ensures p.publishDate.None? ==> ApplyPatch(b, p).publishDate == b.publishDate
    ensures p.publisher.None? ==> ApplyPatch(b, p).publisher == b.publisher
    ensures p.pages.None? ==> ApplyPatch(b, p).pages == b.pages
    ensures p.price.None? ==> ApplyPatch(b, p).price == b.price
    ensures p.description.None? ==> ApplyPatch(b, p).description == b.description
    ensures p.website.None? ==> ApplyPatch(b, p).website == b.website
    ensures p.comments.None? ==> ApplyPatch(b, p).comments == b.comments
    ensures p.genre.None? ==> ApplyPatch(b, p).genre == b.genre
    ensures SuppliedKeys(p) == [] ==> ApplyPatch(b, p) == b
  {
  }

  /** A patch that passes the validators keeps a valid book valid. */
  lemma PatchPreservesValidity(b: Book, p: BookPatch)
    requires ValidBook(b) && PatchValid(p)
    ensures ValidBook(ApplyPatch(b, p))
  {
  }

  /** Every book that referenced genre `g` loses its genre; nothing else changes. */
  function ClearGenre(books: map<Id, Book>, g: Id): (r: map<Id, Book>)
    ensures r.Keys == books.Keys
    ensures forall id :: id in r ==> r[id].genre != Some(g)
    ensures forall id :: id in books && books[id].genre == Some(g) ==> r[id].genre == None
    ensures forall id :: id in books && books[id].genre != Some(g) ==> r[id] == books[id]
    ensures forall id :: id in books ==> r[id] == books[id].(genre := r[id].genre)
  {
    map id | id in books :: if books[id].genre == Some(g) then books[id].(genre := None) else books[id]
  }

  /** `book.comments = []` on one book: its comments are empty, every other field and book is kept. */
  function ClearComments(books: map<Id, Book>, bookId: Id): (r: map<Id, Book>)
    requires bookId in books
    ensures r.Keys == books.Keys
    ensures r[bookId].comments == [] && r[bookId] == books[bookId].(comments := r[bookId].comments)
    ensures forall id :: id in books && id != bookId ==> r[id] == books[id]
  {
    books[bookId := books[bookId].(comments := [])]
  }

  /** `comments.id(commentId)` and `findIndex`: the first comment with that id. */
  function FindComment(comments: seq<BookComment>, commentId: Id): (r: Option<nat>)
    ensures r.Some? ==> r.value < |comments| && comments[r.value].id == commentId
    ensures r.Some? ==> forall k :: 0 <= k < r.value ==> comments[k].id != commentId
    ensures r.None? <==> forall k :: 0 <= k < |comments| ==> comments[k].id != commentId
  {
    FirstWhere(comments, (c: BookComment) => c.id == commentId)
  }

  /** The three `x || old.x` assignments of `updateComment`. */
  function MergeComment(c: BookComment, rating: Option<int>, comment: Option<string>, author: Option<string>): (r: BookComment)
    ensures r.id == c.id
    ensures r.rating == if TruthyNumber(rating) then rating else c.rating
    ensures r.comment == if TruthyString(comment) then comment else c.comment
    ensures r.author == if TruthyString(author) then author else c.author
  {
    c.(rating := OrNumber(rating, c.rating), comment := OrString(comment, c.comment), author := OrString(author, c.author))
  }

  /** Falsy values (absent, 0, "") keep what was stored. */
  lemma MergeFalsyKeeps(c: BookComment, rating: Option<int>, comment: Option<string>, author: Option<string>)
    requires rating == None || rating == Some(0)
    requires comment == None || comment == Some("")
    requires author == None || author == Some("")
    ensures MergeComment(c, rating, comment, author) == c
  {
  }

  /** A merge keeps a valid comment valid unless it brings a rating outside [1, 5]. */
  lemma MergeValidity(c: BookComment, rating: Option<int>, comment: Option<string>, author: Option<string>)
    requires ValidComment(c)
    ensures ValidComment(MergeComment(c, rating, comment, author)) <==>
      !TruthyNumber(rating) || 1 <= rating.value <= 5
  {
  }

  /** The book and genre collections. */
  class BookStore {
    var books: map<Id, Book>
    var genres: map<Id, Genre>

    /** Every stored document passes its schema, and the unique indexes hold. */
    ghost predicate Valid()
      reads this
    {
      && (forall id :: id in books ==> ValidBook(books[id]))
      && UniqueIsbns(books)
      && (forall id :: id in genres ==> ValidGenre(genres[id]))
      && UniqueGenreNames(genres)
    }

    constructor ()
      ensures Valid() && books == map[] && genres == map[]
    {
      books := map[];
      genres := map[];
    }

    /**
     * `handleCreateBook`: a taken isbn is 409, checked before the genre; a
     * genre id that does not exist is 400; a book the schema rejects makes
     * `save()` throw (500).  Only success inserts, exactly one book, under the
     * fresh id `newId`.
     */
    method CreateBook(book: Book, newId: Id) returns (reply: Reply<Book>)
      requires Valid() && newId !in books
      modifies this
      ensures Valid() && genres == old(genres)
      ensures IsbnHeldByOther(old(books), None, book.isbn) ==>
        reply == Failure(CONFLICT, ISBN_EXISTS) && books == old(books)
      ensures !IsbnHeldByOther(old(books), None, book.isbn) && !GenreExists(genres, book.genre) ==>
        reply == Failure(BAD_REQUEST, INVALID_GENRE) && books == old(books)
      ensures !IsbnHeldByOther(old(books), None, book.isbn) && GenreExists(genres, book.genre) && !ValidBook(book) ==>
        reply == Failure(INTERNAL_ERROR, SERVER_FAILURE) && books == old(books)
      ensures reply.Success? <==>
        !IsbnHeldByOther(old(books), None, book.isbn) && GenreExists(genres, book.genre) && ValidBook(book)
      ensures reply.Success? ==> reply == Success(CREATED, book) && books == old(books)[newId := book]
    {
      if IsbnHeldByOther(books, None, book.isbn) {
        return Failure(CONFLICT, ISBN_EXISTS);
      }
      if !GenreExists(genres, book.genre) {
        return Failure(BAD_REQUEST, INVALID_GENRE);
      }
      if !ValidBook(book) {
        return Failure(INTERNAL_ERROR, SERVER_FAILURE);
      }
      books := books[newId := book];
      reply := Success(CREATED, book);
    }

    /** `handleDeleteBook`: 404 for an unknown id; otherwise the book is removed and returned. */
    method DeleteBook(id: Id) returns (reply: Reply<Book>)
      requires Valid()
      modifies this
      ensures Valid() && genres == old(genres)
      ensures id !in old(books) ==> reply == Failure(NOT_FOUND, BOOK_NOT_FOUND) && books == old(books)
      ensures id in old(books) ==> reply == Success(OK, old(books)[id]) && books == old(books) - {id}
    {
      if id !in books {
        return Failure(NOT_FOUND, BOOK_NOT_FOUND);
      }
      reply := Success(OK, books[id]);
      books := books - {id};
    }

    /**
     * `handleUpdateBook`: the validators run first (400), then the id is
     * looked up (404); an isbn that another book holds breaks the unique
     * index, which is not a ValidationError (500).  Otherwise every supplied
     * field is set, isbn and genre included.
     */
    method UpdateBook(id: Id, patch: BookPatch) returns (reply: Reply<Book>)
      requires Valid()
      modifies this
      ensures Valid() && genres == old(genres)
      ensures !PatchValid(patch) ==> reply == Failure(BAD_REQUEST, VALIDATION_FAILED) && books == old(books)
      ensures PatchValid(patch) && id !in old(books) ==> reply == Failure(NOT_FOUND, BOOK_NOT_FOUND) && books == old(books)
      ensures PatchValid(patch) && id in old(books) && IsbnHeldByOther(old(books), Some(id), ApplyPatch(old(books)[id], patch).isbn) ==>
        reply == Failure(INTERNAL_ERROR, SERVER_FAILURE) && books == old(books)
      ensures reply.Success? <==>
        PatchValid(patch) && id in old(books) && !IsbnHeldByOther(old(books), Some(id), ApplyPatch(old(books)[id], patch).isbn)
      ensures reply.Success? ==>
        reply == Success(OK, ApplyPatch(old(books)[id], patch)) && books == old(books)[id := ApplyPatch(old(books)[id], patch)]
    {
      var updates := Keep(SuppliedKeys(patch), (k: string) => k in ALLOWED_UPDATES);
      if !PatchValid(patch) {
        return Failure(BAD_REQUEST, VALIDATION_FAILED);
      }
      if id !in books {
        return Failure(NOT_FOUND, BOOK_NOT_FOUND);
      }
      var updated := ApplyPatch(books[id], patch);
      if IsbnHeldByOther(books, Some(id), updated.isbn) {
        return Failure(INTERNAL_ERROR, SERVER_FAILURE);
      }
      PatchPreservesValidity(books[id], patch);
      books := books[id := updated];
      reply := Success(OK, updated);
    }

    /** `createGenre`: a taken name is 409; a missing name fails validation in `save()` (500). */
    method CreateGenre(name: Option<string>, newId: Id) returns (reply: Reply<Genre>)
      requires Valid() && newId !in genres
      modifies this
      ensures Valid() && books == old(books)
      ensures NameHeldByOther(old(genres), None, name) ==> reply == Failure(CONFLICT, GENRE_EXISTS) && genres == old(genres)
      ensures !NameHeldByOther(old(genres), None, name) && !RequiredString(name) ==>
        reply == Failure(INTERNAL_ERROR, SERVER_FAILURE) && genres == old(genres)
      ensures reply.Success? <==> !NameHeldByOther(old(genres), None, name) && RequiredString(name)
      ensures reply.Success? ==> reply == Success(CREATED, Genre(name)) && genres == old(genres)[newId := Genre(name)]
    {
      if NameHeldByOther(genres, None, name) {
        return Failure(CONFLICT, GENRE_EXISTS);
      }
      if !RequiredString(name) {
        return Failure(INTERNAL_ERROR, SERVER_FAILURE);
      }
      genres := genres[newId := Genre(name)];
      reply := Success(CREATED, Genre(name));
    }

    /**
     * `updateGenre`: the required validator runs first (400), then the id is
     * looked up (404); a name another genre holds breaks the unique index (500).
     */
    method UpdateGenre(id: Id, name: Option<string>) returns (reply: Reply<Genre>)
      requires Valid()
      modifies this
      ensures Valid() && books == old(books)
      ensures !RequiredString(name) ==> reply == Failure(BAD_REQUEST, VALIDATION_FAILED) && genres == old(genres)
      ensures RequiredString(name) && id !in old(genres) ==> reply == Failure(NOT_FOUND, GENRE_NOT_FOUND) && genres == old(genres)
      ensures RequiredString(name) && id in old(genres) && NameHeldByOther(old(genres), Some(id), name) ==>
        reply == Failure(INTERNAL_ERROR, SERVER_FAILURE) && genres == old(genres)
      ensures reply.Success? <==> RequiredString(name) && id in old(genres) && !NameHeldByOther(old(genres), Some(id), name)
      ensures reply.Success? ==> reply == Success(OK, Genre(name)) && genres == old(genres)[id := Genre(name)]
    {
      if !RequiredString(name) {
        return Failure(BAD_REQUEST, VALIDATION_FAILED);
      }
      if id !in genres {
        return Failure(NOT_FOUND, GENRE_NOT_FOUND);
      }
      if NameHeldByOther(genres, Some(id), name) {
        return Failure(INTERNAL_ERROR, SERVER_FAILURE);
      }
      genres := genres[id := Genre(name)];
      reply := Success(OK, Genre(name));
    }

    /**
     * `deleteGenre`: an unknown id is 404 and touches no book; otherwise every
     * book that referenced the genre loses the reference, no book is deleted,
     * and the genre is removed.
     */
    method DeleteGenre(id: Id) returns (reply: Reply<()>)
      requires Valid()
      modifies this
      ensures Valid()
      ensures id !in old(genres) ==> reply == Failure(NOT_FOUND, GENRE_NOT_FOUND) && books == old(books) && genres == old(genres)
      ensures id in old(genres) ==> reply == Success(OK, ()) && books == ClearGenre(old(books), id) && genres == old(genres) - {id}
    {
      if id !in genres {
        return Failure(NOT_FOUND, GENRE_NOT_FOUND);
      }
      ghost var before := books;
      books := ClearGenre(books, id);
      assert forall b :: b in books ==> books[b].isbn == before[b].isbn;
      genres := genres - {id};
      reply := Success(OK, ());
    }

    /**
     * `createComment`: 404 for an unknown book; the body's rating, comment and
     * author are appended as a new comment, and a comment the schema rejects
     * makes `save()` throw (500).
     */
    method CreateComment(bookId: Id, rating: Option<int>, comment: Option<string>, author: Option<string>, newCommentId: Id)
      returns (reply: Reply<Book>)
      requires Valid()
      modifies this
      ensures Valid() && genres == old(genres)
      ensures bookId !in old(books) ==> reply == Failure(NOT_FOUND, BOOK_NOT_FOUND) && books == old(books)
      ensures bookId in old(books) && !ValidComment(BookComment(newCommentId, rating, comment, author)) ==>
        reply == Failure(INTERNAL_ERROR, SERVER_FAILURE) && books == old(books)
      ensures reply.Success? <==> bookId in old(books) && ValidComment(BookComment(newCommentId, rating, comment, author))
      ensures reply.Success? ==>
        var b := old(books)[bookId];
        var b' := b.(comments := b.comments + [BookComment(newCommentId, rating, comment, author)]);
        reply == Success(CREATED, b') && books == old(books)[bookId := b']
    {
      if bookId !in books {
        return Failure(NOT_FOUND, BOOK_NOT_FOUND);
      }
      var c := BookComment(newCommentId, rating, comment, author);
      if !ValidComment(c) {
        return Failure(INTERNAL_ERROR, SERVER_FAILURE);
      }
      var b := books[bookId].(comments := books[bookId].comments + [c]);
      books := books[bookId := b];
      reply := Success(CREATED, b);
    }

    /**
     * `updateComment`: 404 for an unknown book or comment; the first comment
     * with that id takes each truthy new value and keeps its old one
     * otherwise; a merged comment the schema rejects makes `save()` throw
     * (500).  All other comments are unchanged.
     */
    method UpdateComment(bookId: Id, commentId: Id, rating: Option<int>, comment: Option<string>, author: Option<string>)
      returns (reply: Reply<Book>)
      requires Valid()
      modifies this
      ensures Valid() && genres == old(genres)
      ensures bookId !in old(books) ==> reply == Failure(NOT_FOUND, BOOK_NOT_FOUND) && books == old(books)
      ensures bookId in old(books) && FindComment(old(books)[bookId].comments, commentId).None? ==>
        reply == Failure(NOT_FOUND, COMMENT_NOT_FOUND) && books == old(books)
      ensures reply.Success? ==>
        var b := old(books)[bookId];
        var i := FindComment(b.comments, commentId).value;
        var b' := b.(comments := b.comments[i := MergeComment(b.comments[i], rating, comment, author)]);
        reply == Success(OK, b') && books == old(books)[bookId := b']
      ensures !reply.Success? ==> books == old(books)
      ensures bookId in old(books) && FindComment(old(books)[bookId].comments, commentId).Some? ==>
        var b := old(books)[bookId];
        var i := FindComment(b.comments, commentId).value;
        reply.Success? <==> ValidComment(MergeComment(b.comments[i], rating, comment, author))
      ensures bookId in old(books) && FindComment(old(books)[bookId].comments, commentId).Some? ==>
        var b := old(books)[bookId];
        var i := FindComment(b.comments, commentId).value;
        !ValidComment(MergeComment(b.comments[i], rating, comment, author)) ==>
        reply == Failure(INTERNAL_ERROR, SERVER_FAILURE) && books == old(books)
    {
      if bookId !in books {
        return Failure(NOT_FOUND, BOOK_NOT_FOUND);
      }
      var b := books[bookId];
      var found := FindComment(b.comments, commentId);
      if found.None? {
        return Failure(NOT_FOUND, COMMENT_NOT_FOUND);
      }
      var i := found.value;
      var merged := MergeComment(b.comments[i], rating, comment, author);
      if !ValidComment(merged) {
        return Failure(INTERNAL_ERROR, SERVER_FAILURE);
      }
      var b' := b.(comments := b.comments[i := merged]);
      books := books[bookId := b'];
      reply := Success(OK, b');
    }

    /**
     * `deleteComment`: 404 for an unknown book or comment; otherwise exactly
     * the first comment with that id is spliced out and the others keep
     * their order.
     */
    method DeleteComment(bookId: Id, commentId: Id) returns (reply: Reply<()>)
      requires Valid()
      modifies this
      ensures Valid() && genres == old(genres)
      ensures bookId !in old(books) ==> reply == Failure(NOT_FOUND, BOOK_NOT_FOUND) && books == old(books)
      ensures bookId in old(books) && FindComment(old(books)[bookId].comments, commentId).None? ==>
        reply == Failure(NOT_FOUND, COMMENT_NOT_FOUND) && books == old(books)
      ensures bookId in old(books) && FindComment(old(books)[bookId].comments, commentId).Some? ==>
        var b := old(books)[bookId];
        reply == Success(OK, ()) &&
        books == old(books)[bookId := b.(comments := RemoveAt(b.comments, FindComment(b.comments, commentId).value))]
    {
      if bookId !in books {
        return Failure(NOT_FOUND, BOOK_NOT_FOUND);
      }
      var b := books[bookId];
      var found := FindComment(b.comments, commentId);
      if found.None? {
        return Failure(NOT_FOUND, COMMENT_NOT_FOUND);
      }
      books := books[bookId := b.(comments := RemoveAt(b.comments, found.value))];
      reply := Success(OK, ());
    }

    /** `deleteAllComments`: 404 for an unknown book; otherwise its comments become empty and nothing else changes. */
    method DeleteAllComments(bookId: Id) returns (reply: Reply<Book>)
      requires Valid()
      modifies this
      ensures Valid() && genres == old(genres)
      ensures bookId !in old(books) ==> reply == Failure(NOT_FOUND, BOOK_NOT_FOUND) && books == old(books)
      ensures bookId in old(books) ==>
        var cleared := ClearComments(old(books), bookId);
        reply == Success(OK, cleared[bookId]) && books == cleared
    {
      if bookId !in books {
        return Failure(NOT_FOUND, BOOK_NOT_FOUND);
      }
      books := ClearComments(books, bookId);
      reply := Success(OK, books[bookId]);
    }
  }

  /**
   * A second `deleteAllComments` on the same book leaves the collection as the
   * first left it, and so replies with the same book.
   */
  lemma ClearCommentsIdempotent(books: map<Id, Book>, bookId: Id)
    requires bookId in books
    ensures bookId in ClearComments(books, bookId)
    ensures ClearComments(ClearComments(books, bookId), bookId) == ClearComments(books, bookId)
    ensures ClearComments(ClearComments(books, bookId), bookId)[bookId] == ClearComments(books, bookId)[bookId]
  {
  }

  /** Deleting a comment removes exactly one comment with that id and keeps the rest in order. */
  lemma DeleteCommentRemovesFirst(comments: seq<BookComment>, commentId: Id)
    requires FindComment(comments, commentId).Some?
    ensures var i := FindComment(comments, commentId).value;
      var r := RemoveAt(comments, i);
      && |r| == |comments| - 1
      && r == comments[..i] + comments[i + 1..]
      && multiset(r) + multiset{comments[i]} == multiset(comments)
  {
    var i := FindComment(comments, commentId).value;
    assert comments == comments[..i] + [comments[i]] + comments[i + 1..];
  }
}
