/**
 * The four input forms: which fields each accepts, the per-field checks its
 * model declarations imply, and the two custom clean hooks (title length on
 * the create form, rating range on the review form). Validation is pure: it
 * returns the submitted values unchanged or the list of field errors.
 */
module Forms {
  import opened Wrappers
  import opened Models

  const TitleTooShortMessage: string := "Название книги слишком короткое."
  const RatingOutOfRangeMessage: string := "Рейтинг должен быть от 1 до 5."
  /** The minimum title length clean_title enforces. */
  const MinCreateTitleLength: nat := 2

  /** Why a field was refused; `Rejected` carries a custom clean hook's message. */
  datatype Problem =
    | Required
    | TooLong(maxLength: nat)
    | OutOfRange(min: int, max: int)
    | InvalidChoice
    | Rejected(message: string)

  datatype FieldError = FieldError(field: string, problem: Problem)

  /** The rows a choice field may point at: the authors and genres that exist. */
  datatype Choices = Choices(authors: set<AuthorId>, genres: set<GenreId>)

  const BookCreateFormFields: seq<string> :=
    ["title", "author", "genres", "publication_year", "annotation", "cover", "pages", "isbn"]
  const BookEditFormFields: seq<string> :=
    ["title", "author", "genres", "publication_year", "annotation", "cover", "pages", "isbn"]
  const ReviewFormFields: seq<string> := ["rating", "text"]
  const AuthorFormFields: seq<string> := ["name", "bio", "birth_date"]

  /** clean_title: a title shorter than two characters is refused, any other is returned as is. */
  function CleanTitle(title: string): (r: Result<string, FieldError>)
    ensures r.Ok? <==> |title| >= MinCreateTitleLength
    ensures r.Ok? ==> r.value == title
    ensures r.Err? ==> r.error == FieldError("title", Rejected(TitleTooShortMessage))
  {
    if |title| < 2 then Err(FieldError("title", Rejected(TitleTooShortMessage))) else Ok(title)
  }

  /** clean_rating: a rating below 1 or above 5 is refused, any other is returned as is. */
  function CleanRating(rating: int): (r: Result<int, FieldError>)
    ensures r.Ok? <==> MinRating <= rating <= MaxRating
    ensures r.Ok? ==> r.value == rating
    ensures r.Err? ==> r.error == FieldError("rating", Rejected(RatingOutOfRangeMessage))
  {
    if rating < 1 || rating > 5 then Err(FieldError("rating", Rejected(RatingOutOfRangeMessage)))
    else Ok(rating)
  }

  /** The boundaries of the two clean hooks. */
  lemma CleanBoundaries(title: string, rating: int)
    ensures |title| <= 1 ==> CleanTitle(title).Err?
    ensures |title| == 2 ==> CleanTitle(title) == Ok(title)
    ensures (rating == 0 || rating == 6) ==> CleanRating(rating).Err?
    ensures (rating == 1 || rating == 5) ==> CleanRating(rating) == Ok(rating)
  {
  }

  /** The title field: required, at most 200 characters, then clean_title when the form has it. */
  function TitleErrors(title: string, withCleanTitle: bool): (errors: seq<FieldError>)
  {
    if |title| == 0 then [FieldError("title", Required)]
    else if |title| > TitleMaxLength then [FieldError("title", TooLong(TitleMaxLength))]
    else if withCleanTitle && CleanTitle(title).Err? then [CleanTitle(title).error]
    else []
  }

  /** Field-by-field errors of a book form, in the order of the form's fields. */
  function BookErrors(f: BookFields, choices: Choices, withCleanTitle: bool): (errors: seq<FieldError>)
  {
    TitleErrors(f.title, withCleanTitle)
    + (if f.author !in choices.authors then [FieldError("author", InvalidChoice)] else [])
    + (if f.genres == {} then [FieldError("genres", Required)]
       else if !(f.genres <= choices.genres) then [FieldError("genres", InvalidChoice)]
       else [])
    + (if !ValidPublicationYear(f.publicationYear)
       then [FieldError("publication_year", OutOfRange(MinPublicationYear, MaxPublicationYear))]
       else [])
    + (if !ValidAnnotation(f.annotation) then [FieldError("annotation", Required)] else [])
    + (if f.pages.None? then [FieldError("pages", Required)] else [])
    + (if !ValidIsbn(f.isbn) then [FieldError("isbn", TooLong(IsbnMaxLength))] else [])
  }

  /**
   * What both book forms demand: the model's field bounds, an existing author,
   * at least one existing genre (the many-to-many field is not blank) and a page count.
   */
  predicate BookFormAccepts(f: BookFields, choices: Choices)
  {
    ValidBookFields(f) && f.author in choices.authors &&
    f.genres != {} && f.genres <= choices.genres && f.pages.Some?
  }

  lemma BookErrorsEmpty(f: BookFields, choices: Choices, withCleanTitle: bool)
    ensures BookErrors(f, choices, withCleanTitle) == [] <==>
            BookFormAccepts(f, choices) && (withCleanTitle ==> |f.title| >= MinCreateTitleLength)
  {
  }

  lemma BookErrorFields(f: BookFields, choices: Choices, withCleanTitle: bool)
    ensures forall e :: e in BookErrors(f, choices, withCleanTitle) ==> e.field in BookCreateFormFields
  {
  }

  /** BookCreateForm: accepts exactly the valid submissions whose title has at least two characters. */
  function ValidateBookCreate(f: BookFields, choices: Choices): (r: Result<BookFields, seq<FieldError>>)
    ensures r.Ok? <==> BookFormAccepts(f, choices) && |f.title| >= MinCreateTitleLength
    ensures r.Ok? ==> r.value == f
    ensures r.Err? ==> r.error != [] && forall e :: e in r.error ==> e.field in BookCreateFormFields
  {
    BookErrorsEmpty(f, choices, true);
    BookErrorFields(f, choices, true);
    var errors := BookErrors(f, choices, true);
    if errors == [] then Ok(f) else Err(errors)
  }

  /** BookEditForm: the same fields and checks, but no clean_title hook. */
  function ValidateBookEdit(f: BookFields, choices: Choices): (r: Result<BookFields, seq<FieldError>>)
    ensures r.Ok? <==> BookFormAccepts(f, choices)
    ensures r.Ok? ==> r.value == f
    ensures r.Err? ==> r.error != [] && forall e :: e in r.error ==> e.field in BookEditFormFields
  {
    BookErrorsEmpty(f, choices, false);
    BookErrorFields(f, choices, false);
    var errors := BookErrors(f, choices, false);
    if errors == [] then Ok(f) else Err(errors)
  }

  /**
   * The edit form admits strictly more than the create form: everything the
   * create form accepts, and in addition one-character titles, which the
   * create form refuses with clean_title's message.
   */
  lemma EditSkipsTitleMinimum(f: BookFields, choices: Choices)
    ensures ValidateBookCreate(f, choices).Ok? ==> ValidateBookEdit(f, choices).Ok?
    ensures BookFormAccepts(f, choices) && |f.title| == 1 ==>
              ValidateBookEdit(f, choices).Ok? &&
              ValidateBookCreate(f, choices).Err? &&
              FieldError("title", Rejected(TitleTooShortMessage)) in ValidateBookCreate(f, choices).error
  {
  }

  /**
   * A submission either book form accepts, with the choices taken from the
   * store's tables, meets exactly what the store demands of a book insert or
   * update: the field declarations, an existing author, existing genres.
   */
  lemma BookFormAcceptanceImpliesStoreAcceptance(f: BookFields, authors: set<AuthorId>, genres: set<GenreId>)
    requires ValidateBookCreate(f, Choices(authors, genres)).Ok? || ValidateBookEdit(f, Choices(authors, genres)).Ok?
    ensures ValidBookFields(f) && f.author in authors && f.genres <= genres
  {
  }

  /** The declared field lists: create and edit take the same fields; a review takes only rating and text. */
  lemma FormFieldSets()
    ensures BookCreateFormFields == BookEditFormFields
    ensures ReviewFormFields == ["rating", "text"]
    ensures "book" !in ReviewFormFields && "user" !in ReviewFormFields
  {
  }

  /** ReviewForm: the rating goes through clean_rating; the text is required. */
  function ValidateReview(f: ReviewFields): (r: Result<ReviewFields, seq<FieldError>>)
    ensures r.Ok? <==> ValidReviewFields(f)
    ensures r.Ok? ==> r.value == f
    ensures r.Err? ==> r.error != [] && forall e :: e in r.error ==> e.field in ReviewFormFields
    ensures r.Err? && !ValidRating(f.rating) ==> r.error[0] == FieldError("rating", Rejected(RatingOutOfRangeMessage))
  {
    var errors :=
      (if CleanRating(f.rating).Err? then [CleanRating(f.rating).error] else [])
      + (if !ValidReviewText(f.text) then [FieldError("text", Required)] else []);
    if errors == [] then Ok(f) else Err(errors)
  }

  /** AuthorForm: the name is required and at most 100 characters; bio and birth date are optional. */
  function ValidateAuthor(f: AuthorFields): (r: Result<AuthorFields, seq<FieldError>>)
    ensures r.Ok? <==> ValidAuthorName(f.name)
    ensures r.Ok? ==> r.value == f
    ensures r.Err? ==> r.error != [] && forall e :: e in r.error ==> e.field in AuthorFormFields
  {
    if |f.name| == 0 then Err([FieldError("name", Required)])
    else if |f.name| > AuthorNameMaxLength then Err([FieldError("name", TooLong(AuthorNameMaxLength))])
    else Ok(f)
  }
}
