/**
 * The book service (services/book-service/service/book_service.go). It asks the category
 * service, over its gRPC client, for the category a book names, then stamps the Book message in
 * place and passes it to the repository. The client's GetCategory and the repository are
 * function parameters giving their answer for the request they are handed.
 */
module BookService {
  import opened Wrappers
  import opened Errors
  import opened Api
  import opened Http
  import BookController

  /** The registry name the category service's gRPC endpoint is discovered under. */
  const CategoryServiceName: string := "book-category-service-grpc"
  const NotAvailable: string := "Book Category Service is not available."
  const AlreadyExists: string := "Book already exists."

  /** The service; `client` is the target of the gRPC connection to the category service, None for a nil client. */
  datatype BookService = BookService(client: Option<string>)

  /**
   * NewBookService: connect to the category service through the registry; a failed connection
   * is returned unchanged, otherwise the service holds a client for the connection's target.
   * `connect` stands for discovery.ServiceConnection.
   */
  function NewBookService(connect: string -> Result<string, Error>): (r: Result<BookService, Error>)
    ensures r.Err? <==> connect(CategoryServiceName).Err?
    ensures r.Err? ==> r.error == connect(CategoryServiceName).error
    ensures r.Ok? ==> r.value.client == Some(connect(CategoryServiceName).value)
  {
    match connect(CategoryServiceName)
    case Err(e) => Err(e)
    case Ok(target) => Ok(BookService(Some(target)))
  }

  /** What the client's GetCategory answers: an error, a response without a category, or a category. */
  datatype CategoryLookup = LookupFailed(err: Error) | LookupEmpty | LookupFound(category: CategoryData)

  /** The error a service returns when the lookup did not find a category: nil when there was no error. */
  function LookupError(lookup: CategoryLookup): (e: Option<Error>)
    requires !lookup.LookupFound?
    ensures e.Some? <==> lookup.LookupFailed?
    ensures lookup.LookupFailed? ==> e == Some(lookup.err)
  {
    if lookup.LookupFailed? then Some(lookup.err) else None
  }

  /**
   * CreateBook: without a client it fails with a 500 fiber error; when the lookup of `categoryId`
   * fails or finds nothing, it returns the lookup's error (nil when there was none) and the book
   * is untouched. Otherwise the book gets a fresh id, the given title, author and description,
   * the id of the category found, and one timestamp for createdAt and updatedAt, and goes to the
   * repository. `newId` stands for uuid.New(); `first` and `second` for the two readings of time.Now().
   */
  method CreateBook<R>(service: BookService, book: Book, title: string, author: string, categoryId: string,
                       description: string, newId: string, first: Instant, second: Instant,
                       lookup: GetCategoryRequest -> CategoryLookup, repo: CreateBookRequest -> Result<R, Error>)
    returns (reply: Reply<R>)
    modifies book
    ensures service.client.None? ==> reply == Reply(None, Some(Fiber(StatusInternalServerError, NotAvailable)))
                                     && book.Data() == old(book.Data())
    ensures service.client.Some? && !lookup(GetCategoryRequest(categoryId)).LookupFound?
            ==> reply == Reply(None, LookupError(lookup(GetCategoryRequest(categoryId))))
                && book.Data() == old(book.Data())
    ensures service.client.Some? && lookup(GetCategoryRequest(categoryId)).LookupFound?
            ==> var found := lookup(GetCategoryRequest(categoryId)).category;
                && book.Data() == BookData(newId, title, author, found.id, description,
                                           Some(Now(first, second)), Some(Now(first, second)))
                && reply == CreateOutcome(repo(CreateBookRequest(Some(book.Data()))), AlreadyExists)
  {
    if service.client.None? {
      return Reply(None, Some(Fiber(StatusInternalServerError, NotAvailable)));
    }
    var category := lookup(GetCategoryRequest(categoryId));
    if !category.LookupFound? {
      return Reply(None, LookupError(category));
    }
    var now := Now(first, second);
    book.id := newId;
    book.title := title;
    book.author := author;
    book.categoryId := category.category.id;
    book.description := description;
    book.createdAt := Some(now);
    book.updatedAt := Some(now);
    var outcome := repo(CreateBookRequest(Some(book.Data())));
    reply := CreateOutcome(outcome, AlreadyExists);
  }

  /**
   * UpdateBook: the lookup as in CreateBook (the client is called without a nil check, so a
   * client must be present); then title, author, description, the found category's id and
   * updatedAt are overwritten, the id and createdAt kept, and the repository's outcome passes
   * through unchanged.
   */
  method UpdateBook<R>(service: BookService, book: Book, title: string, author: string, categoryId: string,
                       description: string, first: Instant, second: Instant,
                       lookup: GetCategoryRequest -> CategoryLookup, repo: UpdateBookRequest -> Result<R, Error>)
    returns (reply: Reply<R>)
    requires service.client.Some?
    modifies book
    ensures !lookup(GetCategoryRequest(categoryId)).LookupFound?
            ==> reply == Reply(None, LookupError(lookup(GetCategoryRequest(categoryId))))
                && book.Data() == old(book.Data())
    ensures lookup(GetCategoryRequest(categoryId)).LookupFound?
            ==> var found := lookup(GetCategoryRequest(categoryId)).category;
                && book.Data() == old(book.Data()).(title := title, author := author, categoryId := found.id,
                                                    description := description, updatedAt := Some(Now(first, second)))
                && reply == FromRepository(repo(UpdateBookRequest(Some(book.Data()))))
  {
    var category := lookup(GetCategoryRequest(categoryId));
    if !category.LookupFound? {
      return Reply(None, LookupError(category));
    }
    book.title := title;
    book.author := author;
    book.categoryId := category.category.id;
    book.description := description;
    book.updatedAt := Some(Now(first, second));
    var outcome := repo(UpdateBookRequest(Some(book.Data())));
    reply := FromRepository(outcome);
  }

  /** GetBook: the repository's answer, or its error unchanged. */
  function GetBook<R>(req: GetBookRequest, repo: GetBookRequest -> Result<R, Error>): (reply: Reply<R>)
    ensures reply.err.Some? <==> repo(req).Err?
    ensures repo(req).Err? ==> reply == Reply(None, Some(repo(req).error))
    ensures repo(req).Ok? ==> reply == Reply(Some(repo(req).value), None)
  {
    FromRepository(repo(req))
  }

  /** ListBooks: the repository's answer, or its error unchanged. */
  function ListBooks<R>(req: ListBooksRequest, repo: ListBooksRequest -> Result<R, Error>): (reply: Reply<R>)
    ensures reply.err.Some? <==> repo(req).Err?
    ensures repo(req).Err? ==> reply == Reply(None, Some(repo(req).error))
    ensures repo(req).Ok? ==> reply == Reply(Some(repo(req).value), None)
  {
    FromRepository(repo(req))
  }

  /** DeleteBook: the repository's answer, or its error unchanged. */
  function DeleteBook<R>(req: DeleteBookRequest, repo: DeleteBookRequest -> Result<R, Error>): (reply: Reply<R>)
    ensures reply.err.Some? <==> repo(req).Err?
    ensures repo(req).Err? ==> reply == Reply(None, Some(repo(req).error))
    ensures repo(req).Ok? ==> reply == Reply(Some(repo(req).value), None)
  {
    FromRepository(repo(req))
  }

  /** The text of the duplicate error cannot itself be mistaken for a duplicate. */
  lemma AlreadyExistsIsNoDuplicate()
    ensures !Contains(AlreadyExists, DuplicateKey)
  {
    assert |AlreadyExists| < |DuplicateKey|;
  }

  /**
   * A lookup that answers without error but without a category makes the service return
   * neither a result nor an error, and the controller then reports success with a null body:
   * 201 for a create, 200 for an update, though nothing was stored.
   */
  lemma {:induction false} EmptyLookupLooksLikeSuccess<R>(createBound: CreateBookRequest, updateBound: UpdateBookRequest,
                                                           id: string, validateCreate: CreateBookRequest -> Option<Error>,
                                                           validateUpdate: UpdateBookRequest -> Option<Error>)
    requires createBound.book.Some? && validateCreate(createBound).None?
    requires id != "" && updateBound.book.Some? && validateUpdate(updateBound).None?
    requires validateUpdate(BookController.WithPathId(updateBound, id)).None?
    requires !BookController.NothingToUpdate(updateBound.book.value)
    ensures BookController.CreateOne<R>(Ok(createBound), validateCreate, Reply(None, LookupError(LookupEmpty))).response
            == Response(StatusCreated, Json(None))
    ensures BookController.UpdateOne<R>(id, Ok(updateBound), validateUpdate, Reply(None, LookupError(LookupEmpty))).response
            == Response(StatusOK, Json(None))
  {
  }
}
