# Library catalog — Dafny model

A model of the data layer of a small Django library catalog:

- **the in-memory catalog** (`catalog/data.py`): a fixed list of three book
  records and the accessors the views call — list all books, find a book by
  id (first match in list order, or nothing), count the books;
- **the input forms** (`catalog/forms.py`): the book create and edit forms,
  the review form and the author form, their field lists, the field checks the
  model declarations imply, and the two custom hooks `clean_title` (titles of
  at least two characters, create form only) and `clean_rating` (ratings 1 to 5);
- **the relational store** (`catalog/models.py`): authors, genres, books and
  reviews as tables keyed by automatically assigned ids, with the declared
  length bounds, integer ranges and default, cascading deletes (author to book,
  book to review, user to review), the book–genre association, one review per
  (book, user), created/updated stamps, and newest-first listings.

Modules: `Wrappers` (Option, Result), `CatalogData`, `Models` (entities and
field bounds), `Forms`, `Store` (class `Catalog` holding the four tables as
maps, with the store invariant `Valid()`).

Modelling choices:

- The module-level list `books_data` is never mutated by the code, so it is
  the constant `BooksData`; every accessor therefore leaves it unchanged.
  `get_book_by_id` is the loop `FindBook` over any list, proved equal to the
  reference definition `Lookup`, and `GetBookById` applies it to the seed list.
- A model field declared without `blank=True` is required: its text must be
  non-empty, in the forms and in the store. The genres many-to-many field is
  not blank, so both book forms require at least one genre; `pages` has a
  default but is not blank, so the forms require it, while a store insert
  without it stores 0.
- The store checks every declared field constraint on every write and changes
  nothing when one fails, as a full model validation would (Django's plain
  `save()` does not run validators; the model treats the declarations as store
  invariants). A foreign key to a missing row, or a second review for the same
  (book, user), is refused the same way.
- Time is a counter: each insert or update of a book or review advances it by
  one and stamps the row with it; every other write (author and genre inserts,
  all deletes) leaves it as it is. `created_at` is set on insert only; `updated_at` on every save.
- Only the create form enforces the two-character title minimum
  (`catalog/forms.py:15-20`). A review's text need only be non-empty, and no
  minimum page count is declared. `catalog/views.py` defines no view that
  edits a review (`catalog/urls.py:12` routes `add_review`, which `views.py`
  does not define); a second review by the same user for the same book is
  refused by the uniqueness constraint.

## Model

| member | source | states |
|---|---|---|
| CatalogData.LookupReturnsMatch | catalog/data.py:50-54 | a book the lookup returns is in the list and has the requested id |
| CatalogData.LookupNoneIffAbsent | catalog/data.py:52-55 | the lookup returns nothing exactly when no book in the list has that id |
| CatalogData.LookupReturnsFirst | catalog/data.py:52-54 | when several books share the id, the lookup returns the first one in list order |
| CatalogData.FindBook | catalog/data.py:50-55 | the scan returns nothing iff no book has the id, otherwise the first book with it; equal to the reference lookup |
| CatalogData.GetAllBooks | catalog/data.py:46-48 | the listing is the seed list: three books with ids 1, 2, 3 in order |
| CatalogData.GetBooksCount | catalog/data.py:57-59 | the count equals the length of the listing |
| CatalogData.SeedLookup | catalog/data.py:13-44 | seed ids are pairwise distinct; a lookup succeeds exactly for ids 1 to 3 and returns the book at that position |
| CatalogData.GetBookById | catalog/data.py:50-55 | on the seed list: a book exactly for ids 1 to 3, the one with that id; otherwise none |
| Forms.CleanTitle | catalog/forms.py:15-20 | refuses every title shorter than 2 with the short-title message; returns every other title unchanged |
| Forms.CleanRating | catalog/forms.py:41-45 | refuses every rating below 1 or above 5 with the range message; returns every other rating unchanged |
| Forms.CleanBoundaries | catalog/forms.py:15-45 | titles of length 0 or 1 refused, length 2 accepted; ratings 0 and 6 refused, 1 and 5 accepted |
| Forms.BookErrorsEmpty | catalog/models.py:33-43 | a book form reports no error exactly when the model bounds hold, the author and genres exist, a genre and a page count are given, and (create form) the title has 2 characters |
| Forms.BookErrorFields | catalog/forms.py:9 | every book-form error names one of the form's fields |
| Forms.ValidateBookCreate | catalog/forms.py:5-20 | accepts exactly the valid submissions with a title of at least 2 characters, returning them unchanged; otherwise a non-empty error list on the form's fields |
| Forms.ValidateBookEdit | catalog/forms.py:22-30 | accepts exactly the submissions meeting the model-level checks, returning them unchanged; no title minimum |
| Forms.EditSkipsTitleMinimum | catalog/forms.py:15-30 | what the create form accepts the edit form accepts; a one-character title is accepted by edit and refused by create with clean_title's message |
| Forms.BookFormAcceptanceImpliesStoreAcceptance | catalog/forms.py:5-30 | a submission either book form accepts, with choices from the store's tables, meets the store's condition for inserting or updating the book |
| Forms.FormFieldSets | catalog/forms.py:9-36 | create and edit forms list the same fields; the review form lists only rating and text, never book or user |
| Forms.ValidateReview | catalog/forms.py:32-45 | accepts exactly ratings 1 to 5 with non-empty text, unchanged; an out-of-range rating yields clean_rating's error first |
| Forms.ValidateAuthor | catalog/forms.py:47-55 | accepts exactly names of 1 to 100 characters, unchanged; bio and birth date optional |
| Store.InsertNewestFirst | catalog/models.py:56 | inserting into a newest-first list keeps it newest first, adds exactly the new id and keeps ids distinct |
| Store.SortNewestFirst | catalog/models.py:56 | returns every key exactly once, ordered by creation time descending |
| Store.Catalog.constructor | catalog/models.py:6-76 | an empty store satisfies the store invariant |
| Store.Catalog.GetBook | catalog/models.py:32-45 | a book exactly when the id exists, and then a row meeting the declarations whose author exists |
| Store.Catalog.ListBooks | catalog/models.py:56 | every stored book once, newest created first |
| Store.Catalog.ListReviews | catalog/models.py:76 | every stored review once, newest created first |
| Store.Catalog.CreateAuthor | catalog/models.py:6-9 | inserts under a fresh id exactly when the name has 1 to 100 characters; otherwise nothing changes |
| Store.Catalog.CreateGenre | catalog/models.py:21-23 | inserts under a fresh id exactly when the name has 1 to 50 characters; otherwise nothing changes |
| Store.Catalog.CreateBook | catalog/models.py:32-45 | inserts exactly when the bounds hold (title at most 200, year 1000 to 2030, ISBN at most 13) and author and genres exist; pages default to 0; both stamps are the new time |
| Store.Catalog.UpdateBook | catalog/models.py:32-45 | not found for a missing id; otherwise the same checks, created_at kept, updated_at strictly later |
| Store.Catalog.DeleteBook | catalog/models.py:59 | removes the book and exactly its reviews; authors, genres, other books and other reviews unchanged |
| Store.Catalog.DeleteAuthor | catalog/models.py:34 | removes the author, exactly that author's books and the reviews of those books; every remaining book references an existing author |
| Store.Catalog.DeleteGenre | catalog/models.py:35 | removes the genre and its associations; every book stays otherwise unchanged |
| Store.Catalog.CreateReview | catalog/models.py:58-75 | inserts exactly when the rating is 1 to 5, the text non-empty, the book exists and no review of that (book, user) exists; the store never holds two reviews with one pair |
| Store.Catalog.UpdateReview | catalog/models.py:61-67 | not found for a missing id; otherwise the same field checks, book, user and created_at kept, updated_at strictly later |
| Store.Catalog.DeleteUser | catalog/models.py:60 | removes exactly the reviews written by that user |

## Left out

- The views, URL routing and admin configuration: rendering and routing glue around the accessors; the "not found" page corresponds to `GetBookById` returning `None`.
- Image uploads: a cover is only the stored reference string.
- The user model and authentication: a user is an opaque id; deleting a user is modelled only for its effect on reviews.
- Date parsing and checking for an author's birth date; string conversion of entities and URL building.
- Real clocks: time is a counter advanced by each insert or update of a book or review.
- Whitespace stripping by text form fields, and the exact wording of the framework's built-in validation messages (errors carry a kind and a limit instead; the two custom messages are the source's own). The order of messages within one field is not modelled.
- Missing or unparsable integer inputs in forms: a submitted year or rating is always an integer (a missing page count is modelled).
- Updates of authors and genres: no form or view in the code edits them.
- Integer width: page counts are unbounded integers; the database's integer range, which the framework validates for `pages`, is not modelled (years and ratings have tighter declared ranges).
- Transactions and concurrent requests: every store method is one atomic step.
