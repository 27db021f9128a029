/**
 * The relational store the model declarations describe: four tables keyed by
 * automatically assigned ids, foreign keys with cascading deletes (author to
 * book, book to review, user to review), the many-to-many book-genre
 * association, one review per (book, user), and the created/updated stamps.
 * Every write checks the declared field constraints first and changes nothing
 * when they fail.
 */
module Store {
  import opened Wrappers
  import opened Models

  datatype StoreError = NotFound | InvalidFields | MissingReference | DuplicateReview

  /** No two distinct reviews share the same (book, user) pair. */
  predicate UniqueBookUser(reviews: map<ReviewId, Review>)
  {
    forall r1, r2 :: r1 in reviews && r2 in reviews && r1 != r2 ==>
      reviews[r1].book != reviews[r2].book || reviews[r1].user != reviews[r2].user
  }

  /** The ids in `ids` are pairwise distinct. */
  predicate Distinct(ids: seq<nat>)
  {
    forall i, j :: 0 <= i < j < |ids| ==> ids[i] != ids[j]
  }

  /** `ids` is ordered by creation time, newest first. */
  predicate NewestFirst(ids: seq<nat>, created: map<nat, Time>)
    requires forall i :: 0 <= i < |ids| ==> ids[i] in created
  {
    forall i, j :: 0 <= i < j < |ids| ==> created[ids[i]] >= created[ids[j]]
  }

  /** Inserts `k` into a newest-first sequence before the first entry that is not newer than it. */
  function InsertNewestFirst(ids: seq<nat>, k: nat, created: map<nat, Time>): (r: seq<nat>)
    requires forall i :: 0 <= i < |ids| ==> ids[i] in created
    requires k in created
    ensures |r| == |ids| + 1
    ensures forall x :: x in r <==> x in ids || x == k
    ensures forall i :: 0 <= i < |r| ==> r[i] in created
    ensures NewestFirst(ids, created) ==> NewestFirst(r, created)
    ensures Distinct(ids) && k !in ids ==> Distinct(r)
  {
    if ids == [] then [k]
    else if created[k] >= created[ids[0]] then
      assert NewestFirst(ids, created) ==> forall j :: 0 <= j < |ids| ==> created[k] >= created[ids[j]];
      [k] + ids
    else
      var tail := InsertNewestFirst(ids[1..], k, created);
      assert forall x :: x in ids[1..] ==> x in ids;
      assert NewestFirst(ids, created) ==> forall i :: 0 <= i < |tail| ==> created[ids[0]] >= created[tail[i]] by {
        if NewestFirst(ids, created) {
          forall i | 0 <= i < |tail| ensures created[ids[0]] >= created[tail[i]] {
            assert tail[i] in tail;
            if tail[i] != k {
              var j :| 0 <= j < |ids[1..]| && ids[1..][j] == tail[i];
              assert ids[j + 1] == tail[i];
            }
          }
        }
      }
      assert Distinct(ids) && k !in ids ==> Distinct(ids[1..]) && ids[0] !in tail by {
        if Distinct(ids) && k !in ids {
          forall i | 0 <= i < |tail| ensures tail[i] != ids[0] {
            assert tail[i] in tail;
            if tail[i] != k {
              var j :| 0 <= j < |ids[1..]| && ids[1..][j] == tail[i];
              assert ids[j + 1] == tail[i];
            }
          }
        }
      }
      [ids[0]] + tail
  }

  /** Orders the keys of `created` newest first: the ordering of book and review listings. */
  method SortNewestFirst(created: map<nat, Time>) returns (ids: seq<nat>)
    ensures Distinct(ids)
    ensures forall i :: 0 <= i < |ids| ==> ids[i] in created
    ensures forall k :: k in created ==> k in ids
    ensures NewestFirst(ids, created)
  {
    ids := [];
    var rest := created.Keys;
    while rest != {}
      invariant rest <= created.Keys
      invariant forall i :: 0 <= i < |ids| ==> ids[i] in created && ids[i] !in rest
      invariant forall k :: k in created ==> k in rest || k in ids
      invariant Distinct(ids)
      invariant NewestFirst(ids, created)
      decreases rest
    {
      var k :| k in rest;
      var before := ids;
      ids := InsertNewestFirst(ids, k, created);
      assert forall i :: 0 <= i < |ids| ==> ids[i] in before || ids[i] == k by {
        forall i | 0 <= i < |ids| ensures ids[i] in before || ids[i] == k {
          assert ids[i] in ids;
        }
      }
      rest := rest - {k};
    }
  }

  class Catalog {
    var authors: map<AuthorId, Author>
    var genres: map<GenreId, Genre>
    var books: map<BookId, Book>
    var reviews: map<ReviewId, Review>
    /** The current time, advanced by each insert or update of a book or review. */
    var clock: Time
    var nextAuthorId: nat
    var nextGenreId: nat
    var nextBookId: nat
    var nextReviewId: nat

    /**
     * The store invariant: every row meets its field declarations, references
     * rows that exist, carries stamps no later than the clock with
     * created <= updated, and has an id below the next one to hand out.
     */
    ghost predicate Valid()
      reads this
    {
      && (forall a :: a in authors ==> 0 < a < nextAuthorId && ValidAuthor(authors[a]))
      && (forall g :: g in genres ==> 0 < g < nextGenreId && ValidGenre(genres[g]))
      && (forall b :: b in books ==>
            && 0 < b < nextBookId
            && ValidBook(books[b])
            && books[b].author in authors
            && books[b].genres <= genres.Keys
            && books[b].createdAt <= books[b].updatedAt <= clock)
      && (forall r :: r in reviews ==>
            && 0 < r < nextReviewId
            && ValidReview(reviews[r])
            && reviews[r].book in books
            && reviews[r].createdAt <= reviews[r].updatedAt <= clock)
      && UniqueBookUser(reviews)
      && nextAuthorId > 0 && nextGenreId > 0 && nextBookId > 0 && nextReviewId > 0
    }

    constructor ()
      ensures Valid()
      ensures authors == map[] && genres == map[] && books == map[] && reviews == map[]
      ensures clock == 0
    {
      authors, genres, books, reviews := map[], map[], map[], map[];
      clock := 0;
      nextAuthorId, nextGenreId, nextBookId, nextReviewId := 1, 1, 1, 1;
    }

    /** Fetch by id: the book when it exists, otherwise not found. */
    method GetBook(id: BookId) returns (r: Option<Book>)
      requires Valid()
      ensures r.Some? <==> id in books
      ensures r.Some? ==> r.value == books[id] && ValidBook(r.value) && r.value.author in authors
    {
      if id in books {
        r := Some(books[id]);
      } else {
        r := None;
      }
    }

    /** All books, newest first (ordering = ['-created_at']). */
    method ListBooks() returns (ids: seq<BookId>)
      ensures Distinct(ids)
      ensures forall b :: b in books <==> b in ids
      ensures forall i, j :: 0 <= i < j < |ids| ==>
                ids[i] in books && ids[j] in books && books[ids[i]].createdAt >= books[ids[j]].createdAt
    {
      var created := map b | b in books :: books[b].createdAt;
      ids := SortNewestFirst(created);
    }

    /** All reviews, newest first (ordering = ['-created_at']). */
    method ListReviews() returns (ids: seq<ReviewId>)
      ensures Distinct(ids)
      ensures forall r :: r in reviews <==> r in ids
      ensures forall i, j :: 0 <= i < j < |ids| ==>
                ids[i] in reviews && ids[j] in reviews && reviews[ids[i]].createdAt >= reviews[ids[j]].createdAt
    {
      var created := map r | r in reviews :: reviews[r].createdAt;
      ids := SortNewestFirst(created);
    }

    method CreateAuthor(f: AuthorFields) returns (r: Result<AuthorId, StoreError>)
      requires Valid()
      modifies this
      ensures Valid()
      ensures r.Ok? <==> ValidAuthorName(f.name)
      ensures r.Err? ==> r.error == InvalidFields && unchanged(this)
      ensures r.Ok? ==> r.value !in old(authors) &&
                        authors == old(authors)[r.value := Author(f.name, f.bio, f.birthDate)]
      ensures genres == old(genres) && books == old(books) && reviews == old(reviews) && clock == old(clock)
    {
      if !ValidAuthorName(f.name) {
        return Err(InvalidFields);
      }
      var id := nextAuthorId;
      authors := authors[id := Author(f.name, f.bio, f.birthDate)];
      nextAuthorId := nextAuthorId + 1;
      r := Ok(id);
    }

    method CreateGenre(name: string, description: string) returns (r: Result<GenreId, StoreError>)
      requires Valid()
      modifies this
      ensures Valid()
      ensures r.Ok? <==> ValidGenreName(name)
      ensures r.Err? ==> r.error == InvalidFields && unchanged(this)
      ensures r.Ok? ==> r.value !in old(genres) && genres == old(genres)[r.value := Genre(name, description)]
      ensures authors == old(authors) && books == old(books) && reviews == old(reviews) && clock == old(clock)
    {
      if !ValidGenreName(name) {
        return Err(InvalidFields);
      }
      var id := nextGenreId;
      genres := genres[id := Genre(name, description)];
      nextGenreId := nextGenreId + 1;
      r := Ok(id);
    }

    /**
     * Insert a book: the fields must meet their declarations and the author and
     * genres must exist. Both stamps are set to the new time; a missing page
     * count becomes the default 0.
     */
    method CreateBook(f: BookFields) returns (r: Result<BookId, StoreError>)
      requires Valid()
      modifies this
      ensures Valid()
      ensures r.Ok? <==> ValidBookFields(f) && f.author in old(authors) && f.genres <= old(genres).Keys
      ensures r.Err? ==> unchanged(this) &&
                         r.error == (if !ValidBookFields(f) then InvalidFields else MissingReference)
      ensures r.Ok? ==> && clock == old(clock) + 1
                        && r.value !in old(books)
                        && books == old(books)[r.value := BookRow(f, f.pages.GetOr(DefaultPages), clock, clock)]
      ensures r.Ok? && f.pages.None? ==> books[r.value].pages == DefaultPages
      ensures authors == old(authors) && genres == old(genres) && reviews == old(reviews)
    {
      if !ValidBookFields(f) {
        return Err(InvalidFields);
      }
      if !(f.author in authors && f.genres <= genres.Keys) {
        return Err(MissingReference);
      }
      clock := clock + 1;
      var id := nextBookId;
      books := books[id := BookRow(f, f.pages.GetOr(DefaultPages), clock, clock)];
      nextBookId := nextBookId + 1;
      r := Ok(id);
    }

    /**
     * Save new field values over an existing book: created_at is kept,
     * updated_at becomes the new time, and a page count not given stays as it was.
     */
    method UpdateBook(id: BookId, f: BookFields) returns (r: Result<BookId, StoreError>)
      requires Valid()
      modifies this
      ensures Valid()
      ensures r.Ok? <==> id in old(books) && ValidBookFields(f) && f.author in old(authors) &&
                         f.genres <= old(genres).Keys
      ensures r.Err? ==> unchanged(this) &&
                         r.error == (if id !in old(books) then NotFound
                                     else if !ValidBookFields(f) then InvalidFields
                                     else MissingReference)
      ensures r.Ok? ==> && r.value == id
                        && clock == old(clock) + 1
                        && books == old(books)[id := BookRow(f, f.pages.GetOr(old(books)[id].pages),
                                                             old(books)[id].createdAt, clock)]
                        && books[id].createdAt == old(books)[id].createdAt
                        && books[id].updatedAt > old(books)[id].updatedAt
      ensures authors == old(authors) && genres == old(genres) && reviews == old(reviews)
    {
      if id !in books {
        return Err(NotFound);
      }
      if !ValidBookFields(f) {
        return Err(InvalidFields);
      }
      if !(f.author in authors && f.genres <= genres.Keys) {
        return Err(MissingReference);
      }
      var prev := books[id];
      clock := clock + 1;
      books := books[id := BookRow(f, f.pages.GetOr(prev.pages), prev.createdAt, clock)];
      r := Ok(id);
    }

    /** Delete a book and, by cascade, exactly the reviews of that book. */
    method DeleteBook(id: BookId) returns (found: bool)
      requires Valid()
      modifies this
      ensures Valid()
      ensures found <==> id in old(books)
      ensures books == old(books) - {id}
      ensures reviews == map r | r in old(reviews) && old(reviews)[r].book != id :: old(reviews)[r]
      ensures authors == old(authors) && genres == old(genres) && clock == old(clock)
    {
      found := id in books;
      books := books - {id};
      reviews := map r | r in reviews && reviews[r].book != id :: reviews[r];
    }

    /**
     * Delete an author, by cascade every book of that author, and by a second
     * cascade every review of those books.
     */
    method DeleteAuthor(id: AuthorId) returns (found: bool)
      requires Valid()
      modifies this
      ensures Valid()
      ensures found <==> id in old(authors)
      ensures authors == old(authors) - {id}
      ensures books == map b | b in old(books) && old(books)[b].author != id :: old(books)[b]
      ensures reviews == map r | r in old(reviews) && old(reviews)[r].book in books :: old(reviews)[r]
      ensures genres == old(genres) && clock == old(clock)
    {
      found := id in authors;
      authors := authors - {id};
      books := map b | b in books && books[b].author != id :: books[b];
      reviews := map r | r in reviews && reviews[r].book in books :: reviews[r];
    }

    /** Delete a genre; its associations with books go too, the books stay. */
    method DeleteGenre(id: GenreId) returns (found: bool)
      requires Valid()
      modifies this
      ensures Valid()
      ensures found <==> id in old(genres)
      ensures genres == old(genres) - {id}
      ensures books == map b | b in old(books) :: old(books)[b].(genres := old(books)[b].genres - {id})
      ensures authors == old(authors) && reviews == old(reviews) && clock == old(clock)
    {
      found := id in genres;
      genres := genres - {id};
      books := map b | b in books :: books[b].(genres := books[b].genres - {id});
    }

    /**
     * Insert a review of `book` by `user`: the fields must meet their
     * declarations, the book must exist, and the user must not have reviewed
     * that book already.
     */
    method CreateReview(book: BookId, user: UserId, f: ReviewFields) returns (r: Result<ReviewId, StoreError>)
      requires Valid()
      modifies this
      ensures Valid()
      ensures r.Ok? <==> ValidReviewFields(f) && book in old(books) &&
                         forall x :: x in old(reviews) ==> old(reviews)[x].book != book || old(reviews)[x].user != user
      ensures r.Err? ==> unchanged(this) &&
                         r.error == (if !ValidReviewFields(f) then InvalidFields
                                     else if book !in old(books) then MissingReference
                                     else DuplicateReview)
      ensures r.Ok? ==> && clock == old(clock) + 1
                        && r.value !in old(reviews)
                        && reviews == old(reviews)[r.value := Review(book, user, f.rating, f.text, clock, clock)]
      ensures authors == old(authors) && genres == old(genres) && books == old(books)
    {
      if !ValidReviewFields(f) {
        return Err(InvalidFields);
      }
      if book !in books {
        return Err(MissingReference);
      }
      if exists x :: x in reviews && reviews[x].book == book && reviews[x].user == user {
        return Err(DuplicateReview);
      }
      clock := clock + 1;
      var id := nextReviewId;
      reviews := reviews[id := Review(book, user, f.rating, f.text, clock, clock)];
      nextReviewId := nextReviewId + 1;
      r := Ok(id);
    }

    /** Save a new rating and text over an existing review; book, user and created_at are kept. */
    method UpdateReview(id: ReviewId, f: ReviewFields) returns (r: Result<ReviewId, StoreError>)
      requires Valid()
      modifies this
      ensures Valid()
      ensures r.Ok? <==> id in old(reviews) && ValidReviewFields(f)
      ensures r.Err? ==> unchanged(this) && r.error == (if id !in old(reviews) then NotFound else InvalidFields)
      ensures r.Ok? ==> && r.value == id
                        && clock == old(clock) + 1
                        && reviews == old(reviews)[id := old(reviews)[id].(rating := f.rating, text := f.text,
                                                                           updatedAt := clock)]
                        && reviews[id].updatedAt > old(reviews)[id].updatedAt
      ensures authors == old(authors) && genres == old(genres) && books == old(books)
    {
      if id !in reviews {
        return Err(NotFound);
      }
      if !ValidReviewFields(f) {
        return Err(InvalidFields);
      }
      clock := clock + 1;
      reviews := reviews[id := reviews[id].(rating := f.rating, text := f.text, updatedAt := clock)];
      r := Ok(id);
    }

    /** The review side of deleting a user: by cascade, every review that user wrote goes. */
    method DeleteUser(user: UserId)
      requires Valid()
      modifies this
      ensures Valid()
      ensures reviews == map r | r in old(reviews) && old(reviews)[r].user != user :: old(reviews)[r]
      ensures authors == old(authors) && genres == old(genres) && books == old(books) && clock == old(clock)
    {
      reviews := map r | r in reviews && reviews[r].user != user :: reviews[r];
    }
  }
}
