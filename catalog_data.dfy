/**
 * The in-memory book catalog: a fixed list of book records and the three
 * read-only accessors the views call (list all, find by id, count).
 */
module CatalogData {
  import opened Wrappers

  /** One record of the in-memory catalog; `genre` and `review` are plain text here. */
  datatype Book = Book(
    id: int,
    title: string,
    author: string,
    coverPath: string,
    annotation: string,
    genre: string,
    publicationYear: int,
    review: string)

  /**
   * The seed list. The source keeps it in a module-level list that no code
   * mutates, so it is a constant here: every accessor leaves it unchanged.
   */
  const BooksData: seq<Book> := [
    Book(1, "Мастер и Маргарита", "Михаил Булгаков", "covers/master.jpg",
         "Великий роман о добре и зле, любви и творчестве.", "Роман", 1966,
         "Один из величайших романов XX века. Перечитываю каждый год."),
    Book(2, "1984", "Джордж Оруэлл", "covers/1984.jpg",
         "Антиутопия о тоталитарном обществе будущего.", "Антиутопия", 1949,
         "Пугающе актуально в наше время. Обязательно к прочтению."),
    Book(3, "Преступление и наказание", "Федор Достоевский", "covers/crime.jpg",
         "Психологический роман о преступлении и его последствиях.", "Психологический роман", 1866,
         "Глубокое исследование человеческой души. Классика!")
  ]

  /** Reference definition of the lookup: the first book in list order with that id. */
  function Lookup(books: seq<Book>, bookId: int): (r: Option<Book>)
  {
    if books == [] then None
    else if books[0].id == bookId then Some(books[0])
    else Lookup(books[1..], bookId)
  }

  /** Whatever Lookup returns is an element of the list and carries the requested id. */
  lemma {:induction false} LookupReturnsMatch(books: seq<Book>, bookId: int)
    requires Lookup(books, bookId).Some?
    ensures Lookup(books, bookId).value in books
    ensures Lookup(books, bookId).value.id == bookId
  {
    if books[0].id != bookId {
      LookupReturnsMatch(books[1..], bookId);
    }
  }

  /** Lookup finds nothing exactly when no book in the list has that id. */
  lemma {:induction false} LookupNoneIffAbsent(books: seq<Book>, bookId: int)
    ensures Lookup(books, bookId).None? <==> forall i :: 0 <= i < |books| ==> books[i].id != bookId
  {
    if books != [] {
      LookupNoneIffAbsent(books[1..], bookId);
      if books[0].id != bookId {
        assert forall i :: 1 <= i < |books| ==> books[i] == books[1..][i - 1];
      }
    }
  }

  /** If position `i` holds the first book with that id, Lookup returns exactly that book. */
  lemma {:induction false} LookupReturnsFirst(books: seq<Book>, bookId: int, i: nat)
    requires i < |books| && books[i].id == bookId
    requires forall j :: 0 <= j < i ==> books[j].id != bookId
    ensures Lookup(books, bookId) == Some(books[i])
  {
    if i > 0 {
      LookupReturnsFirst(books[1..], bookId, i - 1);
    }
  }

  /**
   * get_book_by_id over an arbitrary list: scan in order and return the first
   * book whose id matches, or None after the whole list.
   */
  method FindBook(books: seq<Book>, bookId: int) returns (r: Option<Book>)
    ensures r.None? <==> forall j :: 0 <= j < |books| ==> books[j].id != bookId
    ensures r.Some? ==> exists i :: 0 <= i < |books| && books[i] == r.value && r.value.id == bookId &&
                                    forall j :: 0 <= j < i ==> books[j].id != bookId
    ensures r == Lookup(books, bookId)
  {
    for i := 0 to |books|
      invariant forall j :: 0 <= j < i ==> books[j].id != bookId
    {
      if books[i].id == bookId {
        LookupReturnsFirst(books, bookId, i);
        return Some(books[i]);
      }
    }
    LookupNoneIffAbsent(books, bookId);
    return None;
  }

  /** get_all_books: the seed list itself, whose ids are 1, 2, 3 in order. */
  function GetAllBooks(): (r: seq<Book>)
    ensures |r| == 3
    ensures forall i :: 0 <= i < |r| ==> r[i].id == i + 1
  {
    BooksData
  }

  /** get_books_count: the length of what get_all_books returns. */
  function GetBooksCount(): (n: nat)
    ensures n == |GetAllBooks()|
  {
    |BooksData|
  }

  /** The seed ids are pairwise distinct; a lookup succeeds exactly for ids 1 to 3. */
  lemma {:induction false} SeedLookup(bookId: int)
    ensures forall i, j :: 0 <= i < j < |BooksData| ==> BooksData[i].id != BooksData[j].id
    ensures Lookup(BooksData, bookId).Some? <==> 1 <= bookId <= 3
    ensures 1 <= bookId <= 3 ==> Lookup(BooksData, bookId) == Some(BooksData[bookId - 1])
  {
    if 1 <= bookId <= 3 {
      LookupReturnsFirst(BooksData, bookId, bookId - 1);
    } else {
      LookupNoneIffAbsent(BooksData, bookId);
    }
  }

  /** get_book_by_id on the seed list: the book with id 1, 2 or 3, otherwise None. */
  method GetBookById(bookId: int) returns (r: Option<Book>)
    ensures r.Some? <==> 1 <= bookId <= 3
    ensures r.Some? ==> r.value == BooksData[bookId - 1] && r.value.id == bookId
  {
    r := FindBook(BooksData, bookId);
    SeedLookup(bookId);
  }
}
