# Rust-Backend, modelled in Dafny

This project models the three pieces of sequential logic in a small Rust
backend.

- **Key-value server** (`week1/tokio_tut`). Each connection reads decoded
  commands one after another and applies them to a map from `String` keys to
  byte values. `SET` inserts the value and answers `Simple("OK")`. `GET`
  answers `Bulk(value)` or `Null`. Any other command hits `panic!`, which ends
  the connection's loop.
- **HTTP error mapping** (`week2/src/error.rs`). `into_response` maps the
  closed enum `AppError` to a status code and a JSON error body. The
  `#[error(..)]` attributes give each variant a second text, its `Display`.
- **Request counter and handlers**. `AppState` (`week1/project`) wraps one
  shared request counter. The greet and health handlers increment it and
  build fixed-format replies. The `name` query handler (`week2`) greets the
  `name` parameter or fails with `BadRequest`.

Modules, one per source file:

- `KvServer` (kv_server.dfy): frames, commands, and `Session`. `Run` is the
  specification of one connection. The class `Db` holds the map; its
  `Process` loop is proved equal to `Run`. Also holds the `CanIncrement`
  counter.
- `AppErrors` (app_error.dfy): `AppError`, `IntoResponse` and `Display`.
- `State` (app_state.dfy): `AppState`, a handle on a shared `RequestCount`
  object. Clones share that object.
- `Greet`, `Health` (greet.dfy, health.dfy) and `Query` (query.dfy): the
  handlers.
- `Text` (text.dfy): the decimal text Rust's `{}` gives an unsigned integer,
  the `"{}, {}!"` greeting format, and the lemmas that such texts can be read
  back. `Wrappers` (wrappers.dfy): `Option` and `Result`.

`process` reaches `panic!` on any command other than GET or SET
(week1/tokio_tut/src/main.rs:50). That ends the connection: no `Error` frame
is sent and no later command is handled. `Run` and `Db.Process` report this as
a `panicked` flag, with no response for that command and nothing after it
handled.

## Model

| member | source | states |
|---|---|---|
| `KvServer.GetReply` | week1/tokio_tut/src/main.rs:42-49 | the GET reply is Bulk exactly when the key is bound, and then carries the bound value; otherwise it is Null |
| `KvServer.Step` | week1/tokio_tut/src/main.rs:36-51 | one pass of the loop body: no result (the panic) exactly for a command other than GET or SET; GET leaves the store and answers `GetReply`; SET answers OK and binds its key to its value, adding it to the keys and keeping every other binding |
| `KvServer.SupportedPrefix` | week1/tokio_tut/src/main.rs:50 | the index of the first command that would panic, or the length when there is none; every command before it is GET or SET |
| `KvServer.Run` | week1/tokio_tut/src/main.rs:35-53 | a connection writes exactly one response for each command before the first unsupported one, and panics exactly when there is an unsupported command |
| `KvServer.RunAppend` | week1/tokio_tut/src/main.rs:35-53 | handling a + b is handling a, then, unless a panicked, handling b on the store a left, with the responses concatenated |
| `KvServer.RunOne` | week1/tokio_tut/src/main.rs:36-52 | a single command either panics with no response and the store untouched, or gives its one response and next store |
| `KvServer.RunExtend` | week1/tokio_tut/src/main.rs:35-53 | after a prefix that did not panic, the next command adds its response at the end and moves the store one step, or panics with nothing added |
| `KvServer.RunFinish` | week1/tokio_tut/src/main.rs:35-53 | a prefix ending at the end of the list or just before an unsupported command gives the final store and responses of the whole connection |
| `KvServer.RunPrefixResponses` | week1/tokio_tut/src/main.rs:52 | for every prefix, panicked or not, the responses written for it are the start of the responses for the whole list; later commands never change them |
| `KvServer.RunStopsAtFirstUnsupported` | week1/tokio_tut/src/main.rs:35-53 | the first unsupported command stops the connection: it gets no response, nothing after it is handled, the store is what the commands before it made it, and there is one response per command before it |
| `KvServer.RunResponseAt` | week1/tokio_tut/src/main.rs:36-52 | the j-th response answers the j-th command, applied to the store the first j commands produced (responses in command order) |
| `KvServer.SetBindsKey` | week1/tokio_tut/src/main.rs:37-41 | SET k v leaves k bound to v and answers Simple("OK") |
| `KvServer.SetChangesOnlyItsKey` | week1/tokio_tut/src/main.rs:39 | SET k v leaves every other key with its previous binding, or still absent |
| `KvServer.GetReplyExact` | week1/tokio_tut/src/main.rs:42-49 | GET k answers Bulk(v) exactly when k is bound to v, Null exactly when k is absent, and does not change the store |
| `KvServer.SetThenGet` | week1/tokio_tut/src/main.rs:37-49 | SET k v followed by GET k answers OK and then Bulk(v) |
| `KvServer.RepeatedSetIdempotent` | week1/tokio_tut/src/main.rs:39 | SET k v issued n >= 1 times leaves the same store as issuing it once, answering OK each time |
| `KvServer.Db.constructor` | week1/tokio_tut/src/main.rs:17 | the server starts with an empty map |
| `KvServer.Db.HandleSet` | week1/tokio_tut/src/main.rs:37-41 | the map becomes the old map with k bound to v (an overwrite if k was bound); the reply is Simple("OK") |
| `KvServer.Db.HandleGet` | week1/tokio_tut/src/main.rs:42-49 | the reply is Bulk of the bound value exactly when the key is present and Null exactly when it is absent; nothing is modified |
| `KvServer.Db.Process` | week1/tokio_tut/src/main.rs:31-54 | the loop's final map, responses and panic flag are exactly those of `Run` on the old map |
| `KvServer.CanIncrement.constructor` | week1/tokio_tut/src/main.rs:56-58 | the counter holds the given i32 value |
| `KvServer.CanIncrement.Increment` | week1/tokio_tut/src/main.rs:60-63 | the guarded i32 rises by exactly 1 and stays in i32 range |
| `AppErrors.IntoResponse` | week2/src/error.rs:46-97 | status 500 exactly for Internal, 404 exactly for NotFound, 400 exactly for BadRequest, ValidationError and OutOfBounds; a Validation body exactly for ValidationError |
| `AppErrors.Display` | week2/src/error.rs:16-33 | every variant's `#[error(..)]` text is non-empty; the texts themselves are stated by `DisplayTexts`, `BadRequestVerbatim` and `NotFoundResponse` |
| `AppErrors.StatusClasses` | week2/src/error.rs:48-95 | every status is 400, 404 or 500, and every variant except Internal is a client error (4xx) |
| `AppErrors.BadRequestVerbatim` | week2/src/error.rs:63-67 | BadRequest(msg) answers 400 with msg verbatim as the error; its Display, from the attribute at week2/src/error.rs:21-22, is "Bad request: " followed by that same text |
| `AppErrors.NotFoundResponse` | week2/src/error.rs:69-75 | NotFound answers 404 "Resource not found", the same text as its Display |
| `AppErrors.ValidationResponse` | week2/src/error.rs:49-60 | ValidationError answers 400 with error "Validation Error"; details are the serialised errors, or the fallback object when serialisation fails |
| `AppErrors.InternalHidesCause` | week2/src/error.rs:88-94 | Internal answers 500 "Internal Server Error"; neither the response nor the Display text depends on the wrapped error |
| `AppErrors.OutOfBoundsResponse` | week2/src/error.rs:77-86 | OutOfBounds answers 400 with "Invalid ID {id}, must be between {li} and {hi}", numbers in decimal |
| `AppErrors.OutOfBoundsResponseDetermined` | week2/src/error.rs:77-86 | two OutOfBounds errors with the same response have the same id and limits |
| `AppErrors.OutOfBoundsDisplayDetermined` | week2/src/error.rs:27-29 | the Display text "Invalid ID: {id},expected atleast {li} and atmost {hi}" determines id and limits |
| `AppErrors.DisplayTexts` | week2/src/error.rs:23-32 | ValidationError shows "Validation Error: " then the errors' text; OutOfBounds shows "Invalid ID: {id},expected atleast {li} and atmost {hi}" with the numbers in decimal; Internal shows "Something went wrong" |
| `AppErrors.DisplayFirstChar` | week2/src/error.rs:18-32 | each variant's Display text is non-empty and starts with its own letter |
| `AppErrors.DisplayDeterminesError` | week2/src/error.rs:16-33 | equal Display texts mean the same variant and the same payload; only the wrapped Internal error and the validation JSON are not shown |
| `Text.Decimal` | week2/src/error.rs:80-83 | the text of a number is non-empty decimal digits, with no leading zero except for 0 itself |
| `Text.DecimalRoundTrip` | week2/src/error.rs:80-83 | reading the decimal text of n back gives n |
| `Text.ThreeNumbersDetermined` | week2/src/error.rs:80-83 | three numbers embedded in fixed text, each followed by a separator that starts with a non-digit, can be read back uniquely |
| `Text.Salutation` | week1/project/src/handlers/greet.rs:15 | "{word}, {name}!" contains word, then ", ", then name verbatim, then "!" |
| `Text.SalutationInjective` | week2/src/handlers/query.rs:12 | different names give different greetings |
| `State.RequestCount.constructor` | week1/project/src/state.rs:13 | the shared `u64` behind the lock (state.rs:5) starts at 0 |
| `State.AppState.New` | week1/project/src/state.rs:11-15 | a new state has a fresh counter at 0 |
| `State.AppState.Clone` | week1/project/src/state.rs:3-5 | a clone shares the original's counter object |
| `State.AppState.IncrementRequests` | week1/project/src/state.rs:17-20 | the shared count rises by exactly 1, short of u64 overflow |
| `State.AppState.GetRequest` | week1/project/src/state.rs:22-24 | returns the current count and modifies nothing |
| `State.CountAfterIncrements` | week1/project/src/state.rs:11-24 | after n increments from `new`, `get_request` returns n |
| `State.IncrementThroughClone` | week1/project/src/state.rs:3-20 | an increment through a clone is seen through both the clone and the original |
| `Greet.Greeting` | week1/project/src/handlers/greet.rs:14-16 | the message is "Hello, " + name + "!" with the path name verbatim |
| `Greet.GreetingDeterminesName` | week1/project/src/handlers/greet.rs:15 | different path names give different messages |
| `Greet.GreetUser` | week1/project/src/handlers/greet.rs:9-17 | the count rises by exactly 1 and nothing else changes; the reply is the greeting of the name and does not depend on the count |
| `Health.HealthCheck` | week1/project/src/handlers/health.rs:6-12 | the count rises by exactly 1; the report has status "OK" and the new count, the previous count + 1 |
| `Health.ConsecutiveHealthChecks` | week1/project/src/handlers/health.rs:7-10 | k health checks in a row report old + 1, ..., old + k, each with status "OK" |
| `Query.Name` | week2/src/handlers/query.rs:7-14 | an error exactly when "name" is absent, and then BadRequest("Query Params not found!"); otherwise the message "hello, " + name + "!" |
| `Query.OtherKeysIgnored` | week2/src/handlers/query.rs:9 | two parameter maps that agree on "name" give the same result |
| `Query.MessageDeterminesName` | week2/src/handlers/query.rs:11-13 | the same message means the same name |
| `Query.MissingNameIsBadRequest` | week2/src/handlers/query.rs:10 | with the error mapping, a query without "name" is answered 400 with "Query Params not found!" |

## Left out

- Frame codec: `Connection::read_frame`, `write_frame` and `Command::from_frame` belong to the `mini_redis` crate, which is not part of this model. Commands arrive already decoded. A frame that is not a valid command panics at `unwrap` (week1/tokio_tut/src/main.rs:36); that case is not modelled.
- The frame variants `Error`, `Integer` and `Array` are declared but never produced. The handler only writes `Simple`, `Bulk` and `Null`.
- I/O failures: the `unwrap` panics on reading and writing (week1/tokio_tut/src/main.rs:35,52) are outside the model. End of stream is the end of the command sequence.
- The TCP accept loop and the spawning of one task per connection (week1/tokio_tut/src/main.rs:12-29) are network I/O and concurrency. The `Arc<Mutex<..>>` and `Arc<RwLock<..>>` locks are modelled as single-owner state.
- Concurrent interleaving in `health_check`: the increment and the read take the lock twice, so under concurrency the reported count can include other requests. `Health.HealthCheck` and `Health.ConsecutiveHealthChecks` hold for requests handled one at a time only. Lock poisoning after a panic is not modelled.
- `increment_and_do_stuff` and `do_something_async` (week1/tokio_tut/src/main.rs:65-73) only sleep and print.
- Validation details: `serde_json::to_value` on serde_valid errors is foreign code. A `ValidationErrors` value is known only by its Display text and by its JSON text, or by its absence when serialisation fails.
- The status codes are plain numbers, not axum `StatusCode` values. The JSON bodies are datatypes, not serialised JSON text.
- KvServer.CanIncrement.Increment: requires the i32 to be below its maximum. Rust panics on that overflow in a debug build and wraps in a release build; neither is modelled.
- State.AppState.IncrementRequests: requires the u64 count to be below 2^64 - 1. An overflow, which panics in a debug build, is not modelled. The same precondition passes to `Greet.GreetUser`, `Health.HealthCheck` and `Health.ConsecutiveHealthChecks`.
- Framework wiring is not part of this model: the route tables, the mains, the logging middleware (`week2/src/middleware/logging.rs`), graceful shutdown, the `time` handler (clock output) and the `body` echo handler.
