# gobook service core in Dafny

A model of the core of the gobook book-catalogue services. There are two services, and each
registers its endpoints with a Consul agent:

- the category service, which serves gRPC and HTTP;
- the book service, which serves HTTP and looks up categories over gRPC.

The model covers five parts:

- **Heartbeat.** After registering, each endpoint is kept alive by a heartbeat loop. The loop
  marks the endpoint's TTL check passing every two seconds. Five consecutive failures end it.
- **Start-up and shutdown.** Each service's `webServer` registers its endpoints in a fixed
  order and stops at the first failure. It defers one deregistration per endpoint, and these
  run in reverse order when it returns, which once serving means when the HTTP listener
  returns.
- **Registry adapter.** The adapter wraps the agent's errors. Its effect is modelled on an
  abstract catalogue of services and their TTL checks.
- **Configuration.** The book service reads its configuration from four environment
  variables, checked in order.
- **HTTP handlers and services.** The handlers check the request and map service errors to
  status codes. The services stamp ids and timestamps into the message in place. A
  unique-constraint violation becomes "already exists".

Modules, one per component:

| file | module | component |
|---|---|---|
| `wrappers.dfy` | `Wrappers` | Option and Result |
| `errors.dfy` | `Errors` | Go errors: wrapping, `err.Error()`, `strings.Contains`, the `(res, err)` pair |
| `strconv.dfy` | `Strconv` | `strconv.Atoi` on 64-bit ints, as the start-up code uses it |
| `consul.dfy` | `Consul` | the registry adapter (`Registry` class) over the agent's catalogue (`Agent` class holding a `Directory` value) |
| `heartbeat.dfy` | `Heartbeat` | the heartbeat loop: one loop, and two loops interleaved |
| `lifecycle.dfy` | `Lifecycle` | the trace of actions and log lines, deferred deregistration, what `main` logs |
| `category_main.dfy`, `book_main.dfy` | `CategoryMain`, `BookMain` | the two `webServer`/`main` pairs |
| `book_config.dfy` | `BookConfig` | the book service's configuration |
| `api.dfy` | `Api` | the protocol-buffer messages; `Category` and `Book` are classes the services change in place |
| `http.dfy` | `Http` | Fiber responses, the route tables, the duplicate-key rewrite shared by both services |
| `category_controller.dfy`, `book_controller.dfy` | `CategoryController`, `BookController` | the HTTP handlers |
| `category_service.dfy`, `book_service.dfy` | `CategoryService`, `BookService` | the services |

The model abstracts the collaborators in these ways:

- **Agent calls.** A transport failure of any agent call is a parameter of that call.
- **Repositories and the gRPC client.** These are function parameters. Each one gives its
  answer for the request it is handed.
- **Ids and time.** `uuid.New()` and the generated service ids are parameters. So are the
  two separate readings of `time.Now()`; the services take Seconds from the first and Nanos
  from the second.
- **Controller inputs.** Body binding, the validator and the service's reply are inputs of
  the handler functions. Each handler returns the response and the service call it made, if
  any.

## Model

| member | source | states |
|---|---|---|
| `Errors.Wrap` | services/common/discovery/consul/consul.go:18-21 | `fmt.Errorf("…: %w", err)`: the message gains the context as a prefix and `errors.Unwrap` gives the cause back |
| `Errors.FromRepository` | services/book-category-service/service/category_service.go:37-44 | a pass-through service method returns the repository's value with a nil error, or a nil value with the repository's error unchanged |
| `Errors.ContainsIff` | services/book-category-service/service/category_service.go:70 | `strings.Contains(s, sub)` holds exactly when `sub` occurs at some position of `s` |
| `Errors.ContainsAfterPrefix` | services/book-service/service/book_service.go:99 | a prefix in front of a message never hides a substring of it |
| `Errors.WrappedDuplicateRecognised` | services/book-category-service/service/category_service.go:70 | a wrapped database error whose cause mentions the unique-constraint violation is still recognised as a duplicate |
| `Strconv.ParseUint` | services/book-category-service/main.go:49-50 | the scan of the unsigned part: a syntax error for empty text; a range error exactly when the leading digits exceed the uint64 range, whatever follows them; otherwise the number for all-digit text and a syntax error for any other |
| `Strconv.ScanFromMeaning` | services/book-category-service/main.go:49-50 | the digit-by-digit scan, started on any all-digit prefix with its value, ends as the leading digits decide: range error, number, or syntax error |
| `Strconv.Atoi` | services/book-category-service/main.go:49-50 | the port parsed with the error dropped: in-range decimal text gives its number with success, and only such text succeeds; out-of-range decimal text gives the int64 bound on the side of its sign; other text gives that bound when its leading digits already exceed uint64, and 0 otherwise |
| `Strconv.FastPathAgrees` | services/book-category-service/main.go:49-50 | on texts shorter than 19 bytes, which Go answers without a range check, Atoi gives the signed number for decimal text and 0 with an error for anything else |
| `Strconv.OverflowWins` | services/book-service/main.go:44 | once the leading digits exceed uint64 the result is the int64 bound on the side of the sign, whatever characters follow |
| `Strconv.ItoaDigits` | services/book-category-service/main.go:49-50 | the decimal rendering of a natural number is non-empty, all digits, and has that number as its value |
| `Strconv.AtoiItoa` | services/book-category-service/main.go:49-50 | any in-range port written in decimal parses back to itself with success |
| `Strconv.NonNumericIsZero` | services/book-service/main.go:44 | a port text with a non-digit at a position from 1 to 19 parses as 0 with an error, since the digits before it cannot overflow |
| `Consul.NewRegistration` | services/common/discovery/consul/consul.go:29-39 | the registration carries the given id, name, address, port and tags, and a TTL check of "10s" deregistered after "1m" critical |
| `Consul.CheckIDInjective` | services/common/discovery/consul/consul.go:68 | the check id "service:" + id gives the service id back, so distinct services never share a check |
| `Consul.RegisteredValid` | services/common/discovery/consul/consul.go:41 | registering keeps every service stored under its own id with its check |
| `Consul.DeregisteredValid` | services/common/discovery/consul/consul.go:50 | deregistering keeps every remaining service stored under its own id with its check |
| `Consul.TtlUpdatedValid` | services/common/discovery/consul/consul.go:67-70 | a TTL update keeps every service stored under its own id with its check |
| `Consul.FreshRegistrationHidden` | services/common/discovery/consul/consul.go:59 | a freshly registered instance is in the catalogue but no passing-only query returns it before its first heartbeat |
| `Consul.HeartbeatMakesDiscoverable` | services/common/discovery/consul/consul.go:67-70 | the first heartbeat after registration succeeds and makes the instance returned by a query for its name |
| `Consul.PassingInstancesSound` | services/common/discovery/consul/consul.go:59 | a query returns only instances registered under that name whose check is passing |
| `Consul.DeregisterIdempotent` | services/common/discovery/consul/consul.go:49-56 | deregistering the same id twice leaves the catalogue as deregistering it once |
| `Consul.DeregisteredGone` | services/common/discovery/consul/consul.go:49-70 | after deregistration no query returns the instance and a heartbeat for it fails |
| `Consul.NewRegistry` | services/common/discovery/consul/consul.go:14-26 | a client failure is wrapped with "failed to create consul client: "; otherwise a new registry bound to the address |
| `Consul.Registry.RegisterService` | services/common/discovery/consul/consul.go:28-47 | on success the catalogue holds the registration, its check critical; an agent failure is wrapped and changes nothing |
| `Consul.Registry.DeregisterService` | services/common/discovery/consul/consul.go:49-56 | on success the instance and its check are gone; an agent failure is wrapped and changes nothing |
| `Consul.Registry.GetService` | services/common/discovery/consul/consul.go:58-65 | the passing instances registered under the name, or the agent failure wrapped |
| `Consul.Registry.HealthCheck` | services/common/discovery/consul/consul.go:67-70 | marks the check "service:" + id passing with note "online"; the agent's error, an unknown check included, comes back unwrapped; the service name plays no part |
| `Heartbeat.TrailingFailures` | services/book-category-service/main.go:67-80 | the failure counter never exceeds the number of attempts |
| `Heartbeat.TrailingFailuresMeaning` | services/book-category-service/main.go:71-80 | the counter is at least n exactly when the last n outcomes were all failures |
| `Heartbeat.CounterStep` | services/book-category-service/main.go:71-80 | a success resets the counter to 0 and a failure adds one |
| `Heartbeat.RunIffThreshold` | services/book-category-service/main.go:74 | the counter reaches 5 exactly when the last five outcomes were failures |
| `Heartbeat.HeartbeatLoop` | services/book-service/main.go:54-71 | attempts follow the outcomes in order, a two-second sleep follows every attempt but the one that ends the loop, the loop ends at the first run of five consecutive failures and only there, and otherwise consumes every outcome |
| `Heartbeat.Pass` | services/book-category-service/main.go:69-82 | one pass of a loop consumes one outcome and keeps the counter equal to the trailing failures of what it consumed |
| `Heartbeat.RunLoops` | services/book-category-service/main.go:66-103 | the gRPC and HTTP loops, interleaved in any order, each behave as a loop of their own: neither's counter is affected by the other's outcomes |
| `Lifecycle.ReleasedRemoves` | services/book-category-service/main.go:84 | the deferred deregistrations remove exactly the instances whose call succeeds, with their checks, and add nothing |
| `Lifecycle.ReleasedStep` | services/book-category-service/main.go:104 | one more deferred call adds its deregistration, unless it fails, to the others |
| `Lifecycle.Deregistrations` | services/book-category-service/main.go:84-104 | the deferred calls run last-deferred first |
| `Lifecycle.RunDeferred` | services/book-category-service/main.go:84-104 | the deferred deregistrations run in reverse order and leave the catalogue without every instance whose call succeeded; their errors are discarded |
| `Lifecycle.MainLog` | services/book-category-service/main.go:146-158 | main logs webServer's error only when there is one, then "started" whether or not webServer failed, then the received signal; a fatal exit ends the log |
| `CategoryMain.GrpcRegistration` | services/book-category-service/main.go:46-54 | the gRPC endpoint registers under "<name>-grpc" with tag "grpc" and its address and parsed port |
| `CategoryMain.HttpRegistration` | services/book-category-service/main.go:47-60 | the HTTP endpoint registers under the same name "<name>-grpc" with tag "http" and its address and parsed port |
| `CategoryMain.WebServer` | services/book-category-service/main.go:31-144 | the trace, log, returned error and final catalogue of webServer: each failing step returns at once; after both registrations both heartbeats start, the servers start, and both endpoints are deregistered when the listener returns |
| `CategoryMain.Serve` | services/book-category-service/main.go:66-143 | after both registrations: both heartbeats and the servers start, the listener's error is returned, and both endpoints are deregistered, the HTTP one first |
| `CategoryMain.Process` | services/book-category-service/main.go:146-158 | main's log around webServer |
| `CategoryMain.HeartbeatsFollowRegistration` | services/book-category-service/main.go:54-104 | each heartbeat loop is started for an endpoint registered before it, which is deregistered later; a heartbeat starts only when the client and both registrations succeeded, and only for one of the two endpoints, which the catalogue then holds |
| `CategoryMain.FailureStartsNoHeartbeat` | services/book-category-service/main.go:40-66 | a run whose client or either registration fails starts no heartbeat loop |
| `CategoryMain.HttpFailureLeavesGrpcRegistered` | services/book-category-service/main.go:60-64 | a failed HTTP registration returns before any deregistration is deferred, leaving the gRPC endpoint registered with its check critical |
| `CategoryMain.ListenReturnRestoresDirectory` | services/book-category-service/main.go:54-143 | when the HTTP listener returns and every deferred deregistration succeeds, webServer leaves the catalogue exactly as it found it |
| `CategoryMain.HttpListedUnderGrpcName` | services/book-category-service/main.go:54-60 | once both heartbeats pass, a query for "<name>-grpc" returns the HTTP endpoint beside the gRPC one, and a query for the plain name returns neither |
| `BookConfig.NewServerConfig` | services/book-service/config/server_config.go:20-44 | success exactly when all four variables are set; otherwise the first missing one, in the order HTTP_ADDR, HTTP_PORT, CONSUL_ADDR, SERVICE_NAME, is reported; values are copied and the listen address is addr ":" port |
| `BookConfig.LastColon` | services/book-service/config/server_config.go:38 | the position of the last colon of a text, or none when it has no colon |
| `BookConfig.HttpSplitsBack` | services/book-service/config/server_config.go:38 | splitting the listen address at its last colon undoes its construction: it gives back the configured address and port, for a port without a colon |
| `BookConfig.AnyPortAccepted` | services/book-service/config/server_config.go:25-28 | any non-empty port text is accepted, numeric or not |
| `BookMain.HttpRegistration` | services/book-service/main.go:43-48 | the endpoint registers under the service name with tag "http", the listen address "addr:port" as its address, and the parsed port |
| `BookMain.WebServer` | services/book-service/main.go:28-95 | the trace, log, exit and final catalogue of webServer |
| `BookMain.Process` | services/book-service/main.go:97-108 | main's log around webServer |
| `BookMain.HeartbeatFollowsRegistration` | services/book-service/main.go:48-72 | the heartbeat loop is started for the endpoint registered before it, which is deregistered later; it starts only when the configuration, the client and the registration succeeded, only for the HTTP endpoint, which the catalogue then holds as registered |
| `BookMain.FailureStartsNoHeartbeat` | services/book-service/main.go:37-54 | a run whose configuration, client or registration fails starts no heartbeat loop |
| `BookMain.ConnectFailureDeregisters` | services/book-service/main.go:72-80 | a failed connection to the category service returns its error unchanged, the server never listens, and the deferred call removes the endpoint |
| `BookMain.NonNumericPortRegistersZero` | services/book-service/main.go:44-48 | a port with a non-digit at a position from 1 to 19 is accepted and registered as port 0, while the address keeps the text |
| `BookMain.MissingVariableIsFatal` | services/book-service/main.go:32 | a missing variable ends the process: nothing is registered and "started" is never logged |
| `Http.CreateOutcome` | services/book-category-service/service/category_service.go:67-76 | a create's error that mentions the unique constraint becomes a 400 fiber error with the "already exists" text; every other outcome passes through |
| `Http.CreateOutcomeRewritesOnlyDuplicates` | services/book-service/service/book_service.go:96-105 | the create answer differs from a plain pass-through exactly for duplicate errors |
| `Http.DispatchFrom` | services/book-service/controller/book_controller.go:32-39 | a dispatched request was taken by a route of the table with that method and a matching path |
| `Http.WithIdBindsSegment` | services/book-service/controller/book_controller.go:34 | a ":id" route binds a non-empty, slash-free segment |
| `CategoryController.RouteDispatch` | services/book-category-service/controller/category_controller.go:32-39 | which handler each method and path under the prefix reaches, with which id |
| `CategoryController.RoutedIdsNonEmpty` | services/book-category-service/controller/category_controller.go:34-38 | the get, update and delete handlers are reached only with a non-empty id |
| `CategoryController.GetOne` | services/book-category-service/controller/category_controller.go:41-54 | 400 "category_id not provided" for an empty id without calling the service; otherwise 500 with the error text or 200 with the result |
| `CategoryController.ListAll` | services/book-category-service/controller/category_controller.go:56-65 | 500 with the error text or 200 with the result |
| `CategoryController.CreateOne` | services/book-category-service/controller/category_controller.go:67-91 | binding, then validation, then "category is required" answer 400 in that order; the service gets the category's name and description; 500 with `{"error": <its text>}` on its error, 201 with the result otherwise |
| `CategoryController.UpdateOne` | services/book-category-service/controller/category_controller.go:93-123 | the id, binding, "category cannot be empty", validation with the path id written in, and "At least one field…" answer 400 in that order; the service is called exactly when every check passes, with the request carrying the path id; 500 with `{"error": <its text>}` on its error, 200 with the result otherwise |
| `CategoryController.DeleteOne` | services/book-category-service/controller/category_controller.go:125-138 | as GetOne, for deletion |
| `CategoryController.ServiceErrorsAre500` | services/book-category-service/controller/category_controller.go:117-120 | a fiber error from the service is answered 500, whatever its own code |
| `CategoryService.CreateCategory` | services/book-category-service/service/category_service.go:55-77 | the message gets the fresh id, the name, the description and one timestamp in both createdAt and updatedAt before it goes to the repository; a duplicate becomes 400 "Category already exists." |
| `CategoryService.UpdateCategory` | services/book-category-service/service/category_service.go:79-95 | name, description and updatedAt are overwritten, the id and createdAt kept; the repository's outcome passes through |
| `CategoryService.GetCategory` | services/book-category-service/service/category_service.go:37-44 | the repository's answer, or its error unchanged |
| `CategoryService.ListCategories` | services/book-category-service/service/category_service.go:46-53 | the repository's answer, or its error unchanged |
| `CategoryService.DeleteCategory` | services/book-category-service/service/category_service.go:97-105 | the repository's answer, or its error unchanged |
| `CategoryService.AlreadyExistsIsNoDuplicate` | services/book-category-service/service/category_service.go:71 | the "already exists" text does not itself mention the constraint |
| `CategoryService.DuplicateCreateAnswers500` | services/book-category-service/service/category_service.go:70-72 | a duplicate create, even under a wrapping context, reaches the client as 500 "Category already exists.": the service's 400 is lost in the controller |
| `BookService.NewBookService` | services/book-service/service/book_service.go:33-50 | connects to "book-category-service-grpc"; a failed connection is returned unchanged, otherwise the service holds a client |
| `BookService.LookupError` | services/book-service/service/book_service.go:79-82 | a lookup without a category returns the lookup's error, nil when the response merely had no category |
| `BookService.CreateBook` | services/book-service/service/book_service.go:70-106 | no client: 500 "Book Category Service is not available."; a failed or empty lookup returns its error and leaves the book untouched; otherwise the book gets the fresh id, the fields, the found category's id and one timestamp in createdAt and updatedAt; a duplicate becomes 400 "Book already exists." |
| `BookService.UpdateBook` | services/book-service/service/book_service.go:108-136 | the lookup as in CreateBook; then title, author, description, the found category's id and updatedAt are overwritten, the id and createdAt kept; the repository's outcome passes through |
| `BookService.GetBook` | services/book-service/service/book_service.go:52-59 | the repository's answer, or its error unchanged |
| `BookService.ListBooks` | services/book-service/service/book_service.go:61-68 | the repository's answer, or its error unchanged |
| `BookService.DeleteBook` | services/book-service/service/book_service.go:138-145 | the repository's answer, or its error unchanged |
| `BookService.AlreadyExistsIsNoDuplicate` | services/book-service/service/book_service.go:100 | the "already exists" text does not itself mention the constraint |
| `BookService.EmptyLookupLooksLikeSuccess` | services/book-service/service/book_service.go:79-82 | a lookup that answers without error and without a category makes the controller report 201 (create) or 200 (update) with a null body |
| `BookController.RouteDispatch` | services/book-service/controller/book_controller.go:32-39 | which handler each method and path under the prefix reaches, with which id |
| `BookController.RoutedIdsNonEmpty` | services/book-service/controller/book_controller.go:34-38 | the get, update and delete handlers are reached only with a non-empty id |
| `BookController.GetOne` | services/book-service/controller/book_controller.go:41-54 | 400 "book_id not provided" for an empty id without calling the service; otherwise 500 with the error text or 200 with the result |
| `BookController.ListAll` | services/book-service/controller/book_controller.go:56-65 | 500 with the error text or 200 with the result |
| `BookController.CreateOne` | services/book-service/controller/book_controller.go:67-87 | binding, then validation, then "book cannot be empty" answer 400 in that order; the service gets title, author, category id and description; 500 with `{"error": <its text>}` on its error, 201 with the result otherwise |
| `BookController.UpdateOne` | services/book-service/controller/book_controller.go:89-123 | the id, binding, validation as sent, "book cannot be empty", validation with the path id written in, and "no fields to update" answer 400 in that order; the service is called exactly when every check passes, with the request carrying the path id; 500 with `{"error": <its text>}` on its error, 200 with the result otherwise |
| `BookController.DeleteOne` | services/book-service/controller/book_controller.go:125-138 | as GetOne, for deletion |

## Left out

- Goroutines run concurrently in the source; here they do not. `WebServer` records the start
  of each heartbeat loop and of the gRPC server as an action, and the loops are modelled on
  their own in `Heartbeat`. How heartbeats interleave with the deferred deregistrations is not
  modelled.
- The heartbeat loops never end unless five failures in a row occur. `Heartbeat.HeartbeatLoop`
  runs over a finite sequence of check outcomes instead. The two-second sleep is recorded
  after each attempt but its duration is not modelled.
- These parts are not part of this model:
  - signal handling, beyond the name of the signal received;
  - the gRPC server and its handler;
  - CORS and request-id middleware;
  - the listener's own behaviour beyond its error.
- The logger is modelled only through the lines `main` and `webServer` write. The lines the
  heartbeat goroutines, the gRPC goroutine and the services write are left out.
- Repositories, SQL queries, the database configuration (`NewPostgresDatabase`, `NewStore`)
  and the category service's configuration are not part of this model. The repositories are
  function parameters, and the category service's configuration is an input record.
- These collaborators are parameters, not modelled: `discovery.GenerateServiceID`,
  `discovery.ServiceConnection`, `uuid.New` and `time.Now`.
- The Consul agent is a catalogue of services and their TTL checks. It does not model:
  - TTL expiry or the one-minute removal of critical services;
  - node checks;
  - the ordering of query results, which are a set here.
- Fiber's path matching is reduced to fixed paths and one `:id` segment. Trailing-slash and
  case normalisation are left out.
- In `UpdateOne` the controllers overwrite the request's id in place. They are modelled as
  pure functions, so the overwrite is a value update. No aliasing between the controller's
  request and the service's message object is modelled.
- `ctx` and the `context.Context` arguments play no part and are left out.
- The deferred deregistrations run only when `app.Listen` returns (category main.go:135,
  book main.go:87), and nothing in the services calls `app.Shutdown`. The signal handler is
  installed in `main` only after `webServer` has returned (category main.go:154, book
  main.go:104). A SIGINT or SIGTERM while serving therefore ends the process through Go's
  default handling: no deregistration runs, and the instances stay in the catalogue until
  their TTL checks go critical. The model has no such stop; its runs end only when the
  listener returns, with `listen` giving the listener's error or none.
- `Strconv` reads the port text as characters, where Go reads bytes. A decimal digit is one
  byte and every other byte is a non-digit, so the answers agree; positions in the lemmas
  count characters.
- `BookService.UpdateBook`: the source calls the gRPC client without a nil check. The model
  therefore requires a client. `NewBookService` always sets one.
