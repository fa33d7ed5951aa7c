/**
 * The category HTTP handlers (services/book-category-service/controller/category_controller.go).
 * Binding the body, struct validation and the service are inputs: `bound` is what
 * ctx.Bind().Body produced, `validate` is validator.Struct, and `reply` is what the service
 * answers to the call the handler makes. `call` in the result is None exactly when the handler
 * answered without calling the service.
 */
module CategoryController {
  import opened Wrappers
  import opened Errors
  import opened Api
  import opened Http

  datatype Handler = GetCategory | ListCategories | CreateCategory | UpdateCategory | DeleteCategory

  /** The 400 message for an update that sets neither the name nor the description. */
  const NoFieldMessage: string := "At least one field (name or description) must be provided for update"

  /** The route table, grouped under the endpoint prefix. */
  function Route(prefix: string): seq<Http.Route<Handler>>
  {
    [ Http.Route(Get, WithId(prefix + "/"), GetCategory),
      Http.Route(Get, Literal(prefix + "/"), ListCategories),
      Http.Route(Post, Literal(prefix + "/new"), CreateCategory),
      Http.Route(Put, WithId(prefix + "/"), UpdateCategory),
      Http.Route(Delete, WithId(prefix + "/"), DeleteCategory) ]
  }

  /** Which handler each request reaches, and with which id. */
  lemma RouteDispatch(prefix: string, id: string)
    requires IsSegment(id)
    ensures Dispatch(Route(prefix), Get, prefix + "/" + id) == Some((GetCategory, id))
    ensures Dispatch(Route(prefix), Get, prefix + "/") == Some((ListCategories, ""))
    ensures Dispatch(Route(prefix), Post, prefix + "/new") == Some((CreateCategory, ""))
    ensures Dispatch(Route(prefix), Put, prefix + "/" + id) == Some((UpdateCategory, id))
    ensures Dispatch(Route(prefix), Delete, prefix + "/" + id) == Some((DeleteCategory, id))
  {
    var p := prefix + "/";
    var routes := Route(prefix);
    assert (p + id)[..|p|] == p && (p + id)[|p|..] == id;
    assert prefix + "/" + id == p + id;
    assert Match(WithId(p), p) == None;
    var r1, r2, r3, r4 := routes[1..], routes[2..], routes[3..], routes[4..];
    assert r1[1..] == r2 && r2[1..] == r3 && r3[1..] == r4;
    assert Dispatch(r2, Post, prefix + "/new") == Some((CreateCategory, ""));
    assert Dispatch(routes, Post, prefix + "/new") == Dispatch(r1, Post, prefix + "/new") == Dispatch(r2, Post, prefix + "/new");
    assert Dispatch(r3, Put, p + id) == Some((UpdateCategory, id));
    assert Dispatch(routes, Put, p + id) == Dispatch(r1, Put, p + id) == Dispatch(r2, Put, p + id) == Dispatch(r3, Put, p + id);
    assert Dispatch(r4, Delete, p + id) == Some((DeleteCategory, id));
    assert Dispatch(routes, Delete, p + id) == Dispatch(r1, Delete, p + id) == Dispatch(r2, Delete, p + id)
        == Dispatch(r3, Delete, p + id) == Dispatch(r4, Delete, p + id);
  }

  /** Get, Update and Delete are only reached with a non-empty id, so their empty-id guards answer only direct calls. */
  lemma RoutedIdsNonEmpty(prefix: string, verb: Method, path: string)
    requires Dispatch(Route(prefix), verb, path).Some?
    requires Dispatch(Route(prefix), verb, path).value.0 in {GetCategory, UpdateCategory, DeleteCategory}
    ensures Dispatch(Route(prefix), verb, path).value.1 != ""
  {
    var routes := Route(prefix);
    DispatchFrom(routes, verb, path);
    var k :| 0 <= k < |routes| && routes[k].verb == verb
             && routes[k].handler == Dispatch(routes, verb, path).value.0
             && Match(routes[k].pattern, path) == Some(Dispatch(routes, verb, path).value.1);
    assert routes[k].pattern.WithId?;
    WithIdBindsSegment(routes[k].pattern.prefix, path);
  }

  datatype CreateCall = CreateCall(req: CreateCategoryRequest, name: string, description: string)
  datatype UpdateCall = UpdateCall(req: UpdateCategoryRequest, name: string, description: string)

  /** GET /:id */
  function GetOne<R>(id: string, reply: Reply<R>): (h: Handled<GetCategoryRequest, R>)
    ensures id == "" ==> h == Rejected("category_id not provided")
    ensures id != "" ==> h.call == Some(GetCategoryRequest(id))
    ensures id != "" && reply.err.Some? ==> h.response == Response(StatusInternalServerError, ErrorJson(Message(reply.err.value)))
    ensures id != "" && reply.err.None? ==> h.response == Response(StatusOK, Json(reply.res))
  {
    if id == "" then Rejected("category_id not provided")
    else Answer(GetCategoryRequest(id), reply, StatusOK)
  }

  /** GET / */
  function ListAll<R>(reply: Reply<R>): (h: Handled<ListCategoriesRequest, R>)
    ensures h.call == Some(ListCategoriesRequest)
    ensures reply.err.Some? ==> h.response == Response(StatusInternalServerError, ErrorJson(Message(reply.err.value)))
    ensures reply.err.None? ==> h.response == Response(StatusOK, Json(reply.res))
  {
    Answer(ListCategoriesRequest, reply, StatusOK)
  }

  /** POST /new: bind, then validate, then require a category; the name and description go to the service unchanged. */
  function CreateOne<R>(bound: Result<CreateCategoryRequest, Error>, validate: CreateCategoryRequest -> Option<Error>,
                        reply: Reply<R>): (h: Handled<CreateCall, R>)
    ensures bound.Err? ==> h == Rejected(Message(bound.error))
    ensures bound.Ok? && validate(bound.value).Some? ==> h == Rejected(Message(validate(bound.value).value))
    ensures bound.Ok? && validate(bound.value).None? && bound.value.category.None? ==> h == Rejected("category is required")
    ensures h.call.Some? <==> bound.Ok? && validate(bound.value).None? && bound.value.category.Some?
    ensures h.call.Some? ==> var c := bound.value.category.value;
                             && h.call.value == CreateCall(bound.value, c.name, c.description)
    ensures h.call.Some? ==> h.response == if reply.err.Some?
                                           then Response(StatusInternalServerError, ErrorJson(Message(reply.err.value)))
                                           else Response(StatusCreated, Json(reply.res))
  {
    if bound.Err? then Rejected(Message(bound.error))
    else
      var req := bound.value;
      if validate(req).Some? then Rejected(Message(validate(req).value))
      else if req.category.None? then Rejected("category is required")
      else Answer(CreateCall(req, req.category.value.name, req.category.value.description), reply, StatusCreated)
  }

  /** The request after the path id has overwritten the category's id. */
  function WithPathId(req: UpdateCategoryRequest, id: string): UpdateCategoryRequest
    requires req.category.Some?
  {
    UpdateCategoryRequest(Some(req.category.value.(id := id)))
  }

  /**
   * PUT /:id: the id is checked before the body is read; the body's category id is replaced by
   * the path id before validation; at least one of name and description must be non-empty.
   */
  function UpdateOne<R>(id: string, bound: Result<UpdateCategoryRequest, Error>,
                        validate: UpdateCategoryRequest -> Option<Error>, reply: Reply<R>): (h: Handled<UpdateCall, R>)
    ensures id == "" ==> h == Rejected("category_id not provided")
    ensures id != "" && bound.Err? ==> h == Rejected(Message(bound.error))
    ensures id != "" && bound.Ok? && bound.value.category.None? ==> h == Rejected("category cannot be empty")
    ensures id != "" && bound.Ok? && bound.value.category.Some? && validate(WithPathId(bound.value, id)).Some?
            ==> h == Rejected(Message(validate(WithPathId(bound.value, id)).value))
    ensures id != "" && bound.Ok? && bound.value.category.Some? && validate(WithPathId(bound.value, id)).None?
            && bound.value.category.value.name == "" && bound.value.category.value.description == ""
            ==> h == Rejected(NoFieldMessage)
    ensures h.call.Some? <==> && id != "" && bound.Ok? && bound.value.category.Some?
                              && validate(WithPathId(bound.value, id)).None?
                              && (bound.value.category.value.name != "" || bound.value.category.value.description != "")
    ensures h.call.Some? ==> && id != "" && bound.Ok? && bound.value.category.Some?
                             && var req := WithPathId(bound.value, id);
                             && validate(req).None?
                             && (req.category.value.name != "" || req.category.value.description != "")
                             && h.call.value == UpdateCall(req, req.category.value.name, req.category.value.description)
    ensures h.call.Some? ==> h.response == if reply.err.Some?
                                           then Response(StatusInternalServerError, ErrorJson(Message(reply.err.value)))
                                           else Response(StatusOK, Json(reply.res))
  {
    if id == "" then Rejected("category_id not provided")
    else if bound.Err? then Rejected(Message(bound.error))
    else if bound.value.category.None? then Rejected("category cannot be empty")
    else
      var req := WithPathId(bound.value, id);
      if validate(req).Some? then Rejected(Message(validate(req).value))
      else if req.category.value.name == "" && req.category.value.description == "" then
        Rejected(NoFieldMessage)
      else Answer(UpdateCall(req, req.category.value.name, req.category.value.description), reply, StatusOK)
  }

  /** DELETE /:id */
  function DeleteOne<R>(id: string, reply: Reply<R>): (h: Handled<DeleteCategoryRequest, R>)
    ensures id == "" ==> h == Rejected("category_id not provided")
    ensures id != "" ==> h.call == Some(DeleteCategoryRequest(id))
    ensures id != "" && reply.err.Some? ==> h.response == Response(StatusInternalServerError, ErrorJson(Message(reply.err.value)))
    ensures id != "" && reply.err.None? ==> h.response == Response(StatusOK, Json(reply.res))
  {
    if id == "" then Rejected("category_id not provided")
    else Answer(DeleteCategoryRequest(id), reply, StatusOK)
  }

  /** Whatever the service's error says about its kind, the handlers answer it with 500. */
  lemma ServiceErrorsAre500<R>(id: string, bound: Result<UpdateCategoryRequest, Error>,
                               validate: UpdateCategoryRequest -> Option<Error>, code: int, text: string)
    requires UpdateOne<R>(id, bound, validate, Reply(None, Some(Fiber(code, text)))).call.Some?
    ensures UpdateOne<R>(id, bound, validate, Reply(None, Some(Fiber(code, text)))).response
         == Response(StatusInternalServerError, ErrorJson(text))
  {
  }
}
