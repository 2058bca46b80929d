# Example service template: a verified model of its core

This Dafny project models the logic of a Spring Boot CRUD and Kafka service
template. The model has four parts:

- **ExampleService over the entity store** (`Service`, `Repository`). The
  store is a map from id to entity. Alongside it sit the "examples" read cache
  in front of `findById` and the counter that stands for the database's
  identity sequence. The operations keep the source's guards:
  - a blank search term or a blank name is BadRequest;
  - a duplicate name on create is Conflict;
  - a missing id is NotFound.

  `update` and `delete` evict the cache entry. The class invariant is that
  every cached entity equals the stored one. So, for the operations modelled
  here, a read through the cache never returns a stale entity. That holds
  because `create` inserts under a fresh id. A `create` whose body carries the
  id of an existing row would merge into that row without eviction; see
  "Left out". `update` and `delete` read the store directly. They call
  `findById` on `this`, which bypasses the cache proxy.
- **GlobalExceptionHandler** (`ErrorHandling`). This is a total function from
  the handled exception kinds to an HTTP status and an error body. It is
  checked against an independent statement of the error taxonomy. Every
  response carries the MDC correlation id, the request URI and the clock
  reading.
- **EventProducer** (`Producer`, `Events`). It assigns an id only when the
  event has none and sends keyed by that id. On a failed send it makes exactly
  one further send to the dead-letter topic. The broker is the ordered log of
  sends.
- **EventConsumer and DlqHandler** (`Consumer`). A message is acknowledged only
  when processing returns normally, and only after it. Dead-letter listeners
  always acknowledge.

`Text` holds the `java.lang.String` and `Long` behaviour the service relies on:
`trim()`, the null-or-blank guard, substring containment and `Long.toString`.
`Common` holds `Option`, which stands for a nullable Java reference.

Things the code does not decide are inputs to the model:
- the clock (`LocalDateTime.now()`);
- the generated UUID;
- the MDC correlation id and the request URI;
- how the asynchronous primary send completed;
- the set of codes `HttpStatus.resolve` recognises (`known`).

Three behaviours of the code that the model keeps:
- Non-validation error bodies have no `details` at all (`None`), not an empty
  list: `buildErrorResponse` never sets the field.
- `consumeDlq` in EventConsumer listens with group
  `"example-template-group" + "-dlq"`. That is the same group as DlqHandler's,
  not a separate consumer identity. How the broker then splits the
  dead-letter partitions between the two is not modelled.
- The create-time uniqueness check compares the untrimmed name exactly.
  `update` copies the name without any blank or uniqueness check. Unless a
  database constraint on the name column (not visible in the code modelled)
  rejects it, an update can give two rows the same name
  (`Service.UpdateSkipsUniquenessScenario`). `findByName` then fails because
  the name is not unique.

## Model

| member | source | states |
|---|---|---|
| `Text.Trim` | src/main/java/com/example/template/service/ExampleService.java:53 | `trim()` gives the empty string exactly when every character is at most U+0020; otherwise the result starts and ends with a non-trimmable character |
| `Text.TrimIsInfix` | src/main/java/com/example/template/service/ExampleService.java:53-56 | `trim()` returns `s[i..j]` for some `i <= j` where `s[..i]` and `s[j..]` are blank: the term is `s` with its blank ends removed, kept in place |
| `Text.TrimIgnoresPadding` | src/main/java/com/example/template/service/ExampleService.java:53-56 | blank padding on either side of a term does not change its trimmed form, so "  x " and "x" are the same search |
| `Text.TrimIdempotent` | src/main/java/com/example/template/service/ExampleService.java:53-56 | trimming an already trimmed term changes nothing |
| `Text.ContainsPrefixOfTerm` | src/main/java/com/example/template/repository/ExampleRepository.java:20 | a column that contains a term contains every prefix of it |
| `Text.LongToStringInjective` | src/main/java/com/example/template/service/ExampleService.java:33 | `Long.toString` maps different ids to different strings |
| `Repository.FindById` | src/main/java/com/example/template/repository/ExampleRepository.java:14 | inherited `findById` finds a row exactly when the id is stored, and the row carries that id |
| `Repository.FindByName` | src/main/java/com/example/template/repository/ExampleRepository.java:16 | fails as non-unique exactly when two different rows carry the name. Otherwise it returns the one row named exactly `name`, or is empty when no row has that name |
| `Repository.ExistsByNameIsExact` | src/main/java/com/example/template/repository/ExampleRepository.java:23 | `existsByName(n)` holds exactly when `n` is among the stored names, compared without trimming or case folding |
| `Repository.ExistsByNameDoesNotTrim` | src/main/java/com/example/template/repository/ExampleRepository.java:23 | with a row named "A", `existsByName("A")` holds and `existsByName(" A")` does not |
| `Repository.FindByStatus` | src/main/java/com/example/template/repository/ExampleRepository.java:18 | returns exactly the stored rows whose status equals the argument, unchanged |
| `Repository.Search` | src/main/java/com/example/template/repository/ExampleRepository.java:20-21 | returns exactly the stored rows whose name or description contains the term; a null column matches nothing |
| `Repository.Save` | src/main/java/com/example/template/repository/ExampleRepository.java:14 | inherited `save` stores the row under its id, and every other id finds what it found before |
| `Repository.Delete` | src/main/java/com/example/template/repository/ExampleRepository.java:14 | inherited `delete` removes the row with the entity's id, and every other id finds what it found before |
| `Repository.ExistsByNameIffFound` | src/main/java/com/example/template/repository/ExampleRepository.java:16-23 | `existsByName(n)` holds exactly when `findByName(n)` is not empty: it finds the row or fails because the name is shared |
| `Repository.FindByStatusDisjoint` | src/main/java/com/example/template/repository/ExampleRepository.java:18 | no row is returned for two different statuses |
| `Repository.SearchNarrows` | src/main/java/com/example/template/repository/ExampleRepository.java:20-21 | lengthening the search term can only narrow the result |
| `Repository.SaveThenFind` | src/test/java/com/example/template/integration/ExampleIntegrationTest.java:47-61 | after `save`, `findById` on the saved id finds the row with the saved name |
| `Repository.FindByStatusSelectsActive` | src/test/java/com/example/template/integration/ExampleIntegrationTest.java:63-82 | with one ACTIVE and one INACTIVE row, filtering by ACTIVE yields exactly the ACTIVE row |
| `Service.NotFoundMessage` | src/main/java/com/example/template/service/ExampleService.java:33 | the NotFound message is "Example entity not found with id: " followed by the id's decimal text |
| `Service.ConflictMessage` | src/main/java/com/example/template/service/ExampleService.java:66 | the Conflict message holds the name exactly as given, between "Example entity with name '" and "' already exists" |
| `Service.ConflictMessageIdentifiesName` | src/main/java/com/example/template/service/ExampleService.java:66 | two different names never give the same Conflict message |
| `Service.NotFoundMessageIdentifiesId` | src/main/java/com/example/template/service/ExampleService.java:33 | the message "Example entity not found with id: " + id identifies the id: two ids never share one |
| `Service.Lookup` | src/main/java/com/example/template/service/ExampleService.java:30-34 | the uncached `findById` returns the stored entity when the id is present, otherwise NotFound with the message naming the id |
| `Service.CreateKeepsNamesUnique` | src/main/java/com/example/template/service/ExampleService.java:65-68 | inserting a fresh row whose name no row has keeps names unique |
| `Service.ExampleService.constructor` | src/main/java/com/example/template/service/ExampleService.java:24-26 | a service starts over any existing repository contents and an empty cache, with the invariant holding |
| `Service.ExampleService.FindById` | src/main/java/com/example/template/service/ExampleService.java:28-34 | a read through the cache always returns what the store holds (or NotFound). A found entity is cached and a NotFound is not; the store never changes |
| `Service.ExampleService.FindAll` | src/main/java/com/example/template/service/ExampleService.java:36-41 | pass-through: every stored entity |
| `Service.ExampleService.FindByStatus` | src/main/java/com/example/template/service/ExampleService.java:43-48 | a stored entity is in the result exactly when its status equals the argument |
| `Service.ExampleService.Search` | src/main/java/com/example/template/service/ExampleService.java:50-58 | BadRequest "Search term cannot be empty" exactly when the term is null or blank; otherwise the repository search with the trimmed term |
| `Service.ExampleService.Create` | src/main/java/com/example/template/service/ExampleService.java:60-69 | blank name gives BadRequest. An existing untrimmed name gives Conflict. Success happens exactly when both guards pass: one entity is inserted under a fresh id and returned, and `existsByName` then holds. Failures change nothing, the cache is untouched and name uniqueness is preserved |
| `Service.ExampleService.Update` | src/main/java/com/example/template/service/ExampleService.java:71-79 | absent id gives NotFound with no change. Otherwise exactly name, description and status are overwritten with the body's values, the id is kept, other rows are untouched and the cache entry is evicted |
| `Service.ExampleService.Delete` | src/main/java/com/example/template/service/ExampleService.java:81-86 | absent id gives NotFound with no change. Otherwise exactly that row is removed and its cache entry is evicted |
| `Service.SearchIgnoresPadding` | src/main/java/com/example/template/service/ExampleService.java:53-56 | a term with blank padding searches exactly like the bare term |
| `Service.UpdateThenFindById` | src/main/java/com/example/template/service/ExampleService.java:71-79 | after a successful update, `findById` returns the updated entity and never the pre-update value |
| `Service.DeleteThenFindById` | src/main/java/com/example/template/service/ExampleService.java:81-86 | after a successful delete, `findById` is NotFound even when the entity had been cached |
| `ErrorHandling.BuildErrorResponse` | src/main/java/com/example/template/controller/exception/GlobalExceptionHandler.java:142-154 | the body's status equals the response status. The correlation id is the MDC value, the path is the request URI, and no details are set |
| `ErrorHandling.MapFieldError` | src/main/java/com/example/template/controller/exception/GlobalExceptionHandler.java:156-162 | copies field, default message and rejected value |
| `ErrorHandling.MapConstraintViolation` | src/main/java/com/example/template/controller/exception/GlobalExceptionHandler.java:164-170 | copies property path, message and invalid value |
| `ErrorHandling.MapFieldErrors` | src/main/java/com/example/template/controller/exception/GlobalExceptionHandler.java:88-92 | one detail per field error, in input order, each copying field, message and rejected value |
| `ErrorHandling.MapConstraintViolations` | src/main/java/com/example/template/controller/exception/GlobalExceptionHandler.java:112-115 | one detail per violation, in input order, each copying path, message and invalid value |
| `ErrorHandling.ValidationResponse` | src/main/java/com/example/template/controller/exception/GlobalExceptionHandler.java:94-104 | 400, "Validation Failed", "Request validation failed", with the MDC correlation id, the request URI and the given details |
| `ErrorHandling.HandleNotFoundException` | src/main/java/com/example/template/controller/exception/GlobalExceptionHandler.java:31-41 | 404, "Not Found", the exception's message |
| `ErrorHandling.HandleBadRequestException` | src/main/java/com/example/template/controller/exception/GlobalExceptionHandler.java:43-53 | 400, "Bad Request", the exception's message |
| `ErrorHandling.HandleConflictException` | src/main/java/com/example/template/controller/exception/GlobalExceptionHandler.java:55-65 | 409, "Conflict", the exception's message |
| `ErrorHandling.HandleExternalServiceException` | src/main/java/com/example/template/controller/exception/GlobalExceptionHandler.java:67-81 | the upstream code when `HttpStatus` resolves it, 502 otherwise; "External Service Error" and the exception's message |
| `ErrorHandling.HandleValidationException` | src/main/java/com/example/template/controller/exception/GlobalExceptionHandler.java:83-105 | 400 with one detail per field error, in order |
| `ErrorHandling.HandleConstraintViolationException` | src/main/java/com/example/template/controller/exception/GlobalExceptionHandler.java:107-128 | 400 with one detail per violation, in order |
| `ErrorHandling.HandleGenericException` | src/main/java/com/example/template/controller/exception/GlobalExceptionHandler.java:130-140 | 500, "Internal Server Error", and always "An unexpected error occurred" |
| `ErrorHandling.Handle` | src/main/java/com/example/template/controller/exception/GlobalExceptionHandler.java:31-140 | every exception gets a response whose body status equals its HTTP status. Every body carries the MDC correlation id, the request URI and the clock reading |
| `ErrorHandling.HandleFollowsTaxonomy` | src/main/java/com/example/template/controller/exception/GlobalExceptionHandler.java:31-140 | each exception gets its kind's status and error label. Details are present exactly for the two validation exceptions |
| `ErrorHandling.HandleMessage` | src/main/java/com/example/template/controller/exception/GlobalExceptionHandler.java:31-140 | the message is the exception's own for NotFound, BadRequest, Conflict and external errors. Validation gets a fixed text and anything else the generic text |
| `ErrorHandling.GenericResponseIgnoresException` | src/main/java/com/example/template/controller/exception/GlobalExceptionHandler.java:130-140 | two unexpected exceptions give the same response whatever their messages, so nothing leaks |
| `ErrorHandling.ErrorStatusUnlessUpstreamPassesThrough` | src/main/java/com/example/template/controller/exception/GlobalExceptionHandler.java:31-140 | the status is 4xx or 5xx unless an external error carried a code `HttpStatus` resolves |
| `Producer.AssignId` | src/main/java/com/example/template/event/EventProducer.java:23-25 | a null id becomes the fresh UUID. Any other id, the empty string included, is kept. Type, payload and timestamp never change |
| `Producer.Sends` | src/main/java/com/example/template/event/EventProducer.java:27-46 | one or two sends. The first goes to "example-events" keyed by the id. A second happens exactly on failure, to "example-events-dlq" with the same key and event |
| `Producer.EventProducer.SendEvent` | src/main/java/com/example/template/event/EventProducer.java:22-41 | the caller's event ends with its id assigned, and the send log grows by exactly the sends above |
| `Producer.EventProducer.SendToDlq` | src/main/java/com/example/template/event/EventProducer.java:43-46 | exactly one send to the dead-letter topic, keyed by the event's id |
| `Producer.GeneratedKeyIsUuid` | src/main/java/com/example/template/event/EventProducer.java:23-28 | an event without an id is sent keyed by the generated UUID string, and every send, the dead-letter one included, carries that id as key and as the event's id |
| `Producer.DeadLetterOnlyOnFailure` | src/main/java/com/example/template/event/EventProducer.java:30-40 | some send goes to the dead-letter topic exactly when the primary send failed |
| `Consumer.ProcessEvent` | src/main/java/com/example/template/event/EventConsumer.java:53-56 | the processing step always completes and changes no state |
| `Consumer.AcksNeverExceedProcessings` | src/main/java/com/example/template/event/EventConsumer.java:26-40 | in any history the consumer can produce, primary-topic acknowledgements never outnumber completed processings |
| `Consumer.EventConsumer.Consume` | src/main/java/com/example/template/event/EventConsumer.java:21-41 | acknowledged exactly once, right after processing, when processing completes. A thrown exception is swallowed and leaves the message unacknowledged. Every primary acknowledgement follows the processing of the same key |
| `Consumer.EventConsumer.ConsumeDlq` | src/main/java/com/example/template/event/EventConsumer.java:43-51 | every dead-letter message is acknowledged exactly once, unconditionally |
| `Consumer.DlqHandler.HandleDlqMessage` | src/main/java/com/example/template/event/DlqHandler.java:20-40 | acknowledged exactly once whatever the event, key and timestamp. Only the acknowledgment is modified, so nothing is republished |
| `Consumer.ConsumeWithShippedProcessing` | src/main/java/com/example/template/event/EventConsumer.java:22-56 | with the shipped `processEvent`, every consumed message is acknowledged exactly once |

## Left out

- The correlation-id filter is not part of this model: its source is not among the files modelled. The correlation id appears only as the MDC value handed to the exception handler.
- ExampleHttpClient, the outbound call wrapper, is not modelled. Its error normalisation depends on reactive `doOnError` chaining, whose semantics are not visible here.
- ExampleController (routing only), the OpenTelemetry configuration and the application bootstrap are not modelled.
- Pagination and sorting: `findAll`, `findByStatus` and `search` return the whole matching set rather than one page.
- The SQL `LIKE` treatment of `%` and `_` inside a search term, and the database's collation and case rules, are not modelled. `Repository.Search` matches the term literally and case-sensitively.
- `Service.ExampleService.Create`: a request body that already carries an id is not modelled. JPA would merge it into that row instead of inserting, and since `create` evicts nothing, a cached copy of that id would then be stale. The model always inserts under the next id, so its cache-coherence invariant does not cover that path.
- Ids are unbounded integers: overflow of the `Long` id sequence is not modelled.
- Bean validation of request bodies (`@Valid`) is not modelled. The entity's constraints are not visible; validation failures enter only as exceptions given to the handler.
- Concurrency is not modelled: the check-then-insert race in create, the thread safety of the cache, and `@Transactional` boundaries.
- The ExampleEntity class is not part of this model beyond the four columns the service reads and writes (id, name, description, status).
- `HttpStatus.resolve` is represented by the parameter `known`, the set of codes it recognises. The actual enum is not listed.
- A `ConstraintViolationException` holds a set of violations; the model takes them as a sequence in the order the set is iterated.
- Timestamps (`LocalDateTime`) are integers, and rejected values (`Object`) are nullable strings that are only copied.
- Asynchronous completion of sends, broker redelivery and retry policy, and partition assignment between consumer groups are not modelled. The outcome of the primary send is an input; the outcome of the dead-letter send is never observed.
- `Consumer.EventConsumer.Consume` takes the outcome of processing as a parameter. The shipped `processEvent` always completes; the exception path stands for any exception escaping the try block.
- Logging is not modelled.
