/**
 * The four catalog entities as row values, with the bounds, validators and
 * defaults their field declarations spell out. A field declared without
 * `blank=True` is required: its text must be non-empty.
 */
module Models {
  import opened Wrappers

  const AuthorNameMaxLength: nat := 100
  const GenreNameMaxLength: nat := 50
  const TitleMaxLength: nat := 200
  const IsbnMaxLength: nat := 13
  const MinPublicationYear: int := 1000
  const MaxPublicationYear: int := 2030
  const DefaultPages: int := 0
  const MinRating: int := 1
  const MaxRating: int := 5

  /** Automatically assigned primary keys; the first row of a table gets 1. */
  type AuthorId = nat
  type GenreId = nat
  type BookId = nat
  type ReviewId = nat
  /** Users are an external identity; a review only refers to one. */
  type UserId = nat
  /** Server time as a counter, advanced by each insert or update of a book or review. */
  type Time = nat

  /** A calendar date as entered; date parsing and checking are not modelled. */
  datatype Date = Date(year: int, month: int, day: int)

  datatype Author = Author(name: string, bio: string, birthDate: Option<Date>)

  datatype Genre = Genre(name: string, description: string)

  /** A stored book row; `cover` is the stored reference to the uploaded image, empty when none. */
  datatype Book = Book(
    title: string,
    author: AuthorId,
    genres: set<GenreId>,
    publicationYear: int,
    annotation: string,
    cover: string,
    pages: int,
    isbn: string,
    createdAt: Time,
    updatedAt: Time)

  datatype Review = Review(
    book: BookId,
    user: UserId,
    rating: int,
    text: string,
    createdAt: Time,
    updatedAt: Time)

  /** The user-editable part of a book; `pages == None` means the value was not given. */
  datatype BookFields = BookFields(
    title: string,
    author: AuthorId,
    genres: set<GenreId>,
    publicationYear: int,
    annotation: string,
    cover: string,
    pages: Option<int>,
    isbn: string)

  datatype AuthorFields = AuthorFields(name: string, bio: string, birthDate: Option<Date>)

  /** The user-editable part of a review: the book and the user are never among them. */
  datatype ReviewFields = ReviewFields(rating: int, text: string)

  predicate ValidAuthorName(name: string) { 0 < |name| <= AuthorNameMaxLength }
  predicate ValidGenreName(name: string) { 0 < |name| <= GenreNameMaxLength }
  predicate ValidTitle(title: string) { 0 < |title| <= TitleMaxLength }
  predicate ValidIsbn(isbn: string) { |isbn| <= IsbnMaxLength }
  predicate ValidAnnotation(annotation: string) { |annotation| > 0 }
  predicate ValidPublicationYear(year: int) { MinPublicationYear <= year <= MaxPublicationYear }
  predicate ValidRating(rating: int) { MinRating <= rating <= MaxRating }
  predicate ValidReviewText(text: string) { |text| > 0 }

  /** The per-field declarations of Book (foreign keys and genres are checked by the store). */
  predicate BookDeclarations(title: string, publicationYear: int, annotation: string, isbn: string)
  {
    ValidTitle(title) && ValidPublicationYear(publicationYear) && ValidAnnotation(annotation) && ValidIsbn(isbn)
  }

  predicate ValidBookFields(f: BookFields)
  {
    BookDeclarations(f.title, f.publicationYear, f.annotation, f.isbn)
  }

  predicate ValidBook(b: Book)
  {
    BookDeclarations(b.title, b.publicationYear, b.annotation, b.isbn)
  }

  predicate ValidAuthor(a: Author) { ValidAuthorName(a.name) }

  predicate ValidGenre(g: Genre) { ValidGenreName(g.name) }

  predicate ValidReviewFields(f: ReviewFields) { ValidRating(f.rating) && ValidReviewText(f.text) }

  predicate ValidReview(r: Review) { ValidRating(r.rating) && ValidReviewText(r.text) }

  /** The book row a save of `f` produces, with the page count and the two stamps given. */
  function BookRow(f: BookFields, pages: int, createdAt: Time, updatedAt: Time): (b: Book)
  {
    Book(f.title, f.author, f.genres, f.publicationYear, f.annotation, f.cover, pages, f.isbn,
         createdAt, updatedAt)
  }
}
