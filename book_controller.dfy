/**
 * The book HTTP handlers (services/book-service/controller/book_controller.go). As for
 * categories, `bound`, `validate` and `reply` stand for body binding, validator.Struct and the
 * service's answer; `call` is None exactly when the handler answered without calling the service.
 */
module BookController {
  import opened Wrappers
  import opened Errors
  import opened Api
  import opened Http

  datatype Handler = GetBook | ListBooks | CreateBook | UpdateBook | DeleteBook

  /** The route table, grouped under `prefix`, the value of ENDPOINT_PREFIX (config.EndpointPrefix). */
  function Route(prefix: string): seq<Http.Route<Handler>>
  {
    [ Http.Route(Get, WithId(prefix + "/"), GetBook),
      Http.Route(Get, Literal(prefix + "/"), ListBooks),
      Http.Route(Post, Literal(prefix + "/new"), CreateBook),
      Http.Route(Put, WithId(prefix + "/"), UpdateBook),
      Http.Route(Delete, WithId(prefix + "/"), DeleteBook) ]
  }

  /** Which handler each request reaches, and with which id. */
  lemma RouteDispatch(prefix: string, id: string)
    requires IsSegment(id)
    ensures Dispatch(Route(prefix), Get, prefix + "/" + id) == Some((GetBook, id))
    ensures Dispatch(Route(prefix), Get, prefix + "/") == Some((ListBooks, ""))
    ensures Dispatch(Route(prefix), Post, prefix + "/new") == Some((CreateBook, ""))
    ensures Dispatch(Route(prefix), Put, prefix + "/" + id) == Some((UpdateBook, id))
    ensures Dispatch(Route(prefix), Delete, prefix + "/" + id) == Some((DeleteBook, id))
  {
    var p := prefix + "/";
    var routes := Route(prefix);
    assert (p + id)[..|p|] == p && (p + id)[|p|..] == id;
    assert prefix + "/" + id == p + id;
    assert Match(WithId(p), p) == None;
    var r1, r2, r3, r4 := routes[1..], routes[2..], routes[3..], routes[4..];
    assert r1[1..] == r2 && r2[1..] == r3 && r3[1..] == r4;
    assert Dispatch(r2, Post, prefix + "/new") == Some((CreateBook, ""));
    assert Dispatch(routes, Post, prefix + "/new") == Dispatch(r1, Post, prefix + "/new") == Dispatch(r2, Post, prefix + "/new");
    assert Dispatch(r3, Put, p + id) == Some((UpdateBook, id));
    assert Dispatch(routes, Put, p + id) == Dispatch(r1, Put, p + id) == Dispatch(r2, Put, p + id) == Dispatch(r3, Put, p + id);
    assert Dispatch(r4, Delete, p + id) == Some((DeleteBook, id));
    assert Dispatch(routes, Delete, p + id) == Dispatch(r1, Delete, p + id) == Dispatch(r2, Delete, p + id)
        == Dispatch(r3, Delete, p + id) == Dispatch(r4, Delete, p + id);
  }

  /** Get, Update and Delete are only reached with a non-empty id, so their empty-id guards answer only direct calls. */
  lemma RoutedIdsNonEmpty(prefix: string, verb: Method, path: string)
    requires Dispatch(Route(prefix), verb, path).Some?
    requires Dispatch(Route(prefix), verb, path).value.0 in {GetBook, UpdateBook, DeleteBook}
    ensures Dispatch(Route(prefix), verb, path).value.1 != ""
  {
    var routes := Route(prefix);
    DispatchFrom(routes, verb, path);
    var k :| 0 <= k < |routes| && routes[k].verb == verb
             && routes[k].handler == Dispatch(routes, verb, path).value.0
             && Match(routes[k].pattern, path) == Some(Dispatch(routes, verb, path).value.1);
    assert routes[k].pattern.WithId?;
    WithIdBindsSegment(routes[k].pattern.prefix, path);
  }

  datatype BookCall<Q> = BookCall(req: Q, title: string, author: string, categoryId: string, description: string)

  /** GET /:id */
  function GetOne<R>(id: string, reply: Reply<R>): (h: Handled<GetBookRequest, R>)
    ensures id == "" ==> h == Rejected("book_id not provided")
    ensures id != "" ==> h.call == Some(GetBookRequest(id))
    ensures id != "" && reply.err.Some? ==> h.response == Response(StatusInternalServerError, ErrorJson(Message(reply.err.value)))
    ensures id != "" && reply.err.None? ==> h.response == Response(StatusOK, Json(reply.res))
  {
    if id == "" then Rejected("book_id not provided")
    else Answer(GetBookRequest(id), reply, StatusOK)
  }

  /** GET / */
  function ListAll<R>(reply: Reply<R>): (h: Handled<ListBooksRequest, R>)
    ensures h.call == Some(ListBooksRequest)
    ensures reply.err.Some? ==> h.response == Response(StatusInternalServerError, ErrorJson(Message(reply.err.value)))
    ensures reply.err.None? ==> h.response == Response(StatusOK, Json(reply.res))
  {
    Answer(ListBooksRequest, reply, StatusOK)
  }

  /** POST /new: bind, then validate, then require a book; its four fields go to the service unchanged. */
  function CreateOne<R>(bound: Result<CreateBookRequest, Error>, validate: CreateBookRequest -> Option<Error>,
                        reply: Reply<R>): (h: Handled<BookCall<CreateBookRequest>, R>)
    ensures bound.Err? ==> h == Rejected(Message(bound.error))
    ensures bound.Ok? && validate(bound.value).Some? ==> h == Rejected(Message(validate(bound.value).value))
    ensures bound.Ok? && validate(bound.value).None? && bound.value.book.None? ==> h == Rejected("book cannot be empty")
    ensures h.call.Some? <==> bound.Ok? && validate(bound.value).None? && bound.value.book.Some?
    ensures h.call.Some? ==> var b := bound.value.book.value;
                             && h.call.value == BookCall(bound.value, b.title, b.author, b.categoryId, b.description)
    ensures h.call.Some? ==> h.response == if reply.err.Some?
                                           then Response(StatusInternalServerError, ErrorJson(Message(reply.err.value)))
                                           else Response(StatusCreated, Json(reply.res))
  {
    if bound.Err? then Rejected(Message(bound.error))
    else
      var req := bound.value;
      if validate(req).Some? then Rejected(Message(validate(req).value))
      else if req.book.None? then Rejected("book cannot be empty")
      else
        var b := req.book.value;
        Answer(BookCall(req, b.title, b.author, b.categoryId, b.description), reply, StatusCreated)
  }

  /** The request after the path id has overwritten the book's id. */
  function WithPathId(req: UpdateBookRequest, id: string): UpdateBookRequest
    requires req.book.Some?
  {
    UpdateBookRequest(Some(req.book.value.(id := id)))
  }

  /** All four updatable fields are empty. */
  predicate NothingToUpdate(b: BookData)
  {
    b.author == "" && b.categoryId == "" && b.description == "" && b.title == ""
  }

  /**
   * PUT /:id: the id is checked before the body is read; the body is validated as sent, then
   * the path id overwrites the book's id and it is validated again; at least one field must be set.
   */
  function UpdateOne<R>(id: string, bound: Result<UpdateBookRequest, Error>,
                        validate: UpdateBookRequest -> Option<Error>, reply: Reply<R>)
    : (h: Handled<BookCall<UpdateBookRequest>, R>)
    ensures id == "" ==> h == Rejected("book_id not provided")
    ensures id != "" && bound.Err? ==> h == Rejected(Message(bound.error))
    ensures id != "" && bound.Ok? && validate(bound.value).Some? ==> h == Rejected(Message(validate(bound.value).value))
    ensures id != "" && bound.Ok? && validate(bound.value).None? && bound.value.book.None? ==> h == Rejected("book cannot be empty")
    ensures id != "" && bound.Ok? && validate(bound.value).None? && bound.value.book.Some?
            && validate(WithPathId(bound.value, id)).Some?
            ==> h == Rejected(Message(validate(WithPathId(bound.value, id)).value))
    ensures id != "" && bound.Ok? && validate(bound.value).None? && bound.value.book.Some?
            && validate(WithPathId(bound.value, id)).None?
            ==> (h == Rejected("no fields to update") <==> NothingToUpdate(bound.value.book.value))
    ensures h.call.Some? <==> && id != "" && bound.Ok? && validate(bound.value).None? && bound.value.book.Some?
                              && validate(WithPathId(bound.value, id)).None? && !NothingToUpdate(bound.value.book.value)
    ensures h.call.Some? ==> && id != "" && bound.Ok? && validate(bound.value).None? && bound.value.book.Some?
                             && var req := WithPathId(bound.value, id);
                             && validate(req).None? && !NothingToUpdate(req.book.value)
                             && var b := req.book.value;
                             && h.call.value == BookCall(req, b.title, b.author, b.categoryId, b.description)
    ensures h.call.Some? ==> h.response == if reply.err.Some?
                                           then Response(StatusInternalServerError, ErrorJson(Message(reply.err.value)))
                                           else Response(StatusOK, Json(reply.res))
  {
    if id == "" then Rejected("book_id not provided")
    else if bound.Err? then Rejected(Message(bound.error))
    else if validate(bound.value).Some? then Rejected(Message(validate(bound.value).value))
    else if bound.value.book.None? then Rejected("book cannot be empty")
    else
      var req := WithPathId(bound.value, id);
      if validate(req).Some? then Rejected(Message(validate(req).value))
      else if NothingToUpdate(req.book.value) then Rejected("no fields to update")
      else
        var b := req.book.value;
        Answer(BookCall(req, b.title, b.author, b.categoryId, b.description), reply, StatusOK)
  }

  /** DELETE /:id */
  function DeleteOne<R>(id: string, reply: Reply<R>): (h: Handled<DeleteBookRequest, R>)
    ensures id == "" ==> h == Rejected("book_id not provided")
    ensures id != "" ==> h.call == Some(DeleteBookRequest(id))
    ensures id != "" && reply.err.Some? ==> h.response == Response(StatusInternalServerError, ErrorJson(Message(reply.err.value)))
    ensures id != "" && reply.err.None? ==> h.response == Response(StatusOK, Json(reply.res))
  {
    if id == "" then Rejected("book_id not provided")
    else Answer(DeleteBookRequest(id), reply, StatusOK)
  }
}
