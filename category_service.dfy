/**
 * The category service (services/book-category-service/service/category_service.go). It stamps
 * the Category message the controller hands it, in place, and passes it to the repository;
 * the repository is a function parameter giving its outcome for the request it is handed.
 */
module CategoryService {
  import opened Wrappers
  import opened Errors
  import opened Api
  import opened Http
  import CategoryController

  const AlreadyExists: string := "Category already exists."

  /**
   * CreateCategory: a fresh id, the given name and description and one timestamp for both
   * createdAt and updatedAt are written into the message, which then goes to the repository.
   * `newId` stands for uuid.New(); `first` and `second` for the two readings of time.Now().
   */
  method CreateCategory<R>(category: Category, name: string, desc: string, newId: string,
                           first: Instant, second: Instant,
                           repo: CreateCategoryRequest -> Result<R, Error>)
    returns (reply: Reply<R>)
    modifies category
    ensures category.Data() == CategoryData(newId, name, desc, Some(Now(first, second)), Some(Now(first, second)))
    ensures reply == CreateOutcome(repo(CreateCategoryRequest(Some(category.Data()))), AlreadyExists)
  {
    var now := Now(first, second);
    category.id := newId;
    category.name := name;
    category.description := desc;
    category.createdAt := Some(now);
    category.updatedAt := Some(now);
    var outcome := repo(CreateCategoryRequest(Some(category.Data())));
    reply := CreateOutcome(outcome, AlreadyExists);
  }

  /**
   * UpdateCategory: name, description and updatedAt are overwritten; the id and createdAt the
   * message arrived with are kept. The repository's outcome passes through unchanged.
   */
  method UpdateCategory<R>(category: Category, name: string, desc: string,
                           first: Instant, second: Instant,
                           repo: UpdateCategoryRequest -> Result<R, Error>)
    returns (reply: Reply<R>)
    modifies category
    ensures category.Data() == old(category.Data()).(name := name, description := desc, updatedAt := Some(Now(first, second)))
    ensures reply == FromRepository(repo(UpdateCategoryRequest(Some(category.Data()))))
  {
    category.name := name;
    category.description := desc;
    category.updatedAt := Some(Now(first, second));
    var outcome := repo(UpdateCategoryRequest(Some(category.Data())));
    reply := FromRepository(outcome);
  }

  /** GetCategory: the repository's answer, or its error unchanged. */
  function GetCategory<R>(req: GetCategoryRequest, repo: GetCategoryRequest -> Result<R, Error>): (reply: Reply<R>)
    ensures reply.err.Some? <==> repo(req).Err?
    ensures repo(req).Err? ==> reply == Reply(None, Some(repo(req).error))
    ensures repo(req).Ok? ==> reply == Reply(Some(repo(req).value), None)
  {
    FromRepository(repo(req))
  }

  /** ListCategories: the repository's answer, or its error unchanged. */
  function ListCategories<R>(req: ListCategoriesRequest, repo: ListCategoriesRequest -> Result<R, Error>): (reply: Reply<R>)
    ensures reply.err.Some? <==> repo(req).Err?
    ensures repo(req).Err? ==> reply == Reply(None, Some(repo(req).error))
    ensures repo(req).Ok? ==> reply == Reply(Some(repo(req).value), None)
  {
    FromRepository(repo(req))
  }

  /** DeleteCategory: the repository's answer, or its error unchanged. */
  function DeleteCategory<R>(req: DeleteCategoryRequest, repo: DeleteCategoryRequest -> Result<R, Error>): (reply: Reply<R>)
    ensures reply.err.Some? <==> repo(req).Err?
    ensures repo(req).Err? ==> reply == Reply(None, Some(repo(req).error))
    ensures repo(req).Ok? ==> reply == Reply(Some(repo(req).value), None)
  {
    FromRepository(repo(req))
  }

  /** The text of the duplicate error cannot itself be mistaken for a duplicate. */
  lemma AlreadyExistsIsNoDuplicate()
    ensures !Contains(AlreadyExists, DuplicateKey)
  {
    assert |AlreadyExists| < |DuplicateKey|;
  }

  /**
   * A create that the repository rejects for the constraint, even under a wrapping context,
   * reaches the client as a 500 whose body says the category already exists: the service's
   * 400 code is lost, because the controller answers every service error with 500.
   */
  lemma {:induction false} DuplicateCreateAnswers500<R>(bound: CreateCategoryRequest,
                                                       validate: CreateCategoryRequest -> Option<Error>,
                                                       repoError: Error)
    requires bound.category.Some? && validate(bound).None?
    requires repoError.Wrapped? && Contains(Message(repoError.cause), DuplicateKey)
    ensures CategoryController.CreateOne<R>(Ok(bound), validate, CreateOutcome(Err(repoError), AlreadyExists)).response
            == Response(StatusInternalServerError, ErrorJson(AlreadyExists))
  {
    WrappedDuplicateRecognised(repoError);
  }
}
