# Vogon object store: a Dafny model

Vogon keeps declarative objects (kind, version, metadata, spec, status) in a small
database. Clients read and write them over an HTTP API. This project models the core of
the system and proves properties of that model:

- **The storage engine's concurrency protocol** (`internal/database`). `Create`, `Update`,
  `Get` and `Delete` check the caller's id and revision against the stored ones. They
  stamp an object with an engine-owned creation time, id and revision, and they write
  nothing when they fail.
  - Module `Protocol` states the protocol once, as functions of the store's state.
  - Class `Kv.KvDatabase` runs it over a key-value backend whose reads, writes and deletes
    may fail.
  - Class `Memory.InMemoryDatabase` runs it over a map.
  - Each method of the two classes is proved equal to the `Protocol` function of the
    state before the call.
- **Tokens** (`Tokens`). `RandomString` renders a 32-bit random draw with `%x`. The draw is
  an input; the rendering is proved to be 1 to 8 lowercase hex digits, and injective
  because it reads back exactly.
- **Invariants that span several operations** (`Lifecycle`):
  - the tokens written to the store are fresh;
  - a deleted name comes back with a new id;
  - replacing or updating always changes the revision;
  - the update test of the test suite, step by step, extended by an update with a stale
    revision that the test does not send.
- **The API server** (`ApiServer`):
  - the path regular expression `^(/[a-z0-9][a-z0-9-]*)+$`, written as a grammar and
    proved equal to a character-level description;
  - the routing and status codes of `ServeHTTP`, including the cases where the handler
    panics.
- **The client**:
  - trimming one trailing slash from the base URI, and the object URI with a query that
    names the write mode (`Client`);
  - the `apply` command (`ClientCmd`): reading its options as a fold over the arguments,
    validating the decoded object, clearing its tokens, and choosing the write mode.
- **The command registry** (`Commands`): each name can be registered once, and the usage
  text lists the commands in sorted order of their names.

The clock and the random source are parameters:

- `now` stands for `time.Now()`;
- `Draws(first, second)` holds the values the next calls of `RandomString` receive.

An absent create uses `first` for the id and `second` for the revision. A replace or an
update uses `first` for the new revision.

Behaviour the model follows as the code has it, where the comments or the evident intent
say otherwise:

- **Revision without id.** The `Database` interface comments say that only a non-empty id
  or revision is compared. The code also refuses a revision given without an id, with a
  plain error (`Protocol.MatchCheck`; `Protocol.DocMatches` is the documented rule).
- **PUT ignores the write mode.** The client sends `?replace=false` or `?create=false`, but
  the server never reads the query of a PUT. It always calls `Create` with `replace`
  true, so `apply --if-not-exists` replaces an existing object
  (`ApiServer.PutIgnoresWriteMode`).
- **DELETE query.** The handler puts a single `revision` query value into the id argument
  and always passes an empty revision (`ApiServer.DeleteUsesRevisionAsId`,
  `ApiServer.DeleteByRevisionPanics`).
- **Type assertions that panic.** `err.(*database.DoesNotExist)` is a single-value type
  assertion, so it panics on every other error type. A conflict or an invalid argument on
  POST or DELETE, and a backend fault on GET, make the handler panic (`Panicked`) instead
  of answering 400 or 500, and the 500 branch of GET cannot be reached
  (`ApiServer.UpdateRefusalPanics`, `ApiServer.DeleteRefusalPanics`,
  `ApiServer.GetAnswers`).

## Model

| member | source | states |
|---|---|---|
| Objects.ResponseOf | internal/database/kv.go:202-205 | the response holds the object's id and revision, and it is the zero response exactly when both are empty |
| Tokens.Hex | internal/database/kv.go:213 | the hex rendering is at least one lowercase hex digit and has no leading zero |
| Tokens.HexRoundTrip | internal/database/kv.go:213 | reading the rendering back as a hex number gives the drawn value |
| Tokens.HexLengthBound | internal/database/kv.go:209-213 | a value below 16^k is rendered in at most k digits |
| Tokens.RandomString | internal/database/kv.go:208-214 | a token is non-empty, at most 8 characters long, and made only of lowercase hex digits |
| Tokens.RandomStringInjective | internal/database/memory.go:164-170 | two draws that render to the same token are the same draw |
| Tokens.FreshDrawFreshToken | internal/database/kv.go:208-214 | a draw not among the earlier draws gives a token none of them gave |
| Protocol.StoreRead | internal/database/kv.go:16-20 | a read succeeds exactly on a stored key without fault and returns its object; an absent key gives DoesNotExist; a fault is returned as it is |
| Protocol.StoreWrite | internal/database/kv.go:16-20 | a write stores the value under the key unless the backend fails, in which case nothing changes |
| Protocol.StoreDelete | internal/database/kv.go:16-20 | a delete removes exactly the key, an absent key gives DoesNotExist, a fault leaves the store as it was |
| Protocol.MatchCheck | internal/database/kv.go:53-70 | the check passes exactly when the documented match holds and no revision is given without an id; it gives the id conflict, the revision-without-id error or the revision conflict, in that order |
| Protocol.Stamp | internal/database/kv.go:72-74 | the stamped object keeps the caller's content and carries the given creation time, id and revision |
| Protocol.Commit | internal/database/kv.go:81-89 | a write that succeeds stores the object under its name and answers with its id and revision; a write that fails returns the backend error |
| Protocol.Create | internal/database/kv.go:34-90 | see the bullets below the table |
| Protocol.Update | internal/database/kv.go:92-143 | see the bullets below the table |
| Protocol.Get | internal/database/kv.go:145-161 | a present name gives its stored object with no error; an absent name gives the zero object and "Object <name> does not exist"; a read fault gives that error |
| Protocol.Delete | internal/database/kv.go:163-206 | see the bullets below the table |
| Lifecycle.CreatePreservesWellFormed | internal/database/interface.go:24-27 | a create keeps each stored object under its own name with a non-empty id and revision, and its success never answers with empty tokens |
| Lifecycle.UpdatePreservesWellFormed | internal/database/interface.go:24-27 | an update keeps the store well formed in the same sense, and its success never answers with empty tokens |
| Lifecycle.DeletePreservesWellFormed | internal/database/interface.go:24-27 | a delete keeps the store well formed, and its success answers with the deleted object's non-empty tokens |
| Lifecycle.CreateMintsFreshTokens | internal/database/interface.go:24-27 | with draws not used before, a create answers a revision never seen, an absent name gets an id never seen, and every stored token stays rendered from a used draw |
| Lifecycle.UpdateMintsFreshTokens | internal/database/interface.go:26-27 | with a draw not used before, an update answers a revision never seen, and every stored token stays rendered from a used draw |
| Lifecycle.EmptyStoreMinted | internal/database/memory.go:17-21 | the empty store a database starts with satisfies the token invariant |
| Lifecycle.DeleteKeepsMinted | internal/database/kv.go:163-206 | a delete keeps every stored token rendered from the draws used, so the invariant holds under every operation |
| Lifecycle.RewriteChangesRevision | internal/database/interface.go:26-27 | a successful replace or update gives the stored object a revision different from its previous one |
| Lifecycle.DeleteThenCreateStartsNewLineage | internal/database/interface.go:24-25 | a name created again after a delete gets an id different from the deleted object's |
| Lifecycle.CreateTwiceConflicts | internal/database/kv.go:47-52 | a second create of a name with replace false is the "already exists" conflict and writes nothing |
| Lifecycle.FaultlessNeverIo | internal/database/memory.go:23-162 | on the in-memory backend, no operation reports an I/O error |
| Lifecycle.UpdateScenario | internal/database/database_test.go:278-483 | the update test: an update of "one" on an empty store does not exist; after creating "one", a wrong id is the id conflict, a wrong revision the revision conflict, a revision without id is refused; the returned id and revision succeed with the same id, a new revision, and those tokens stored; the id alone succeeds, and so does an update with neither, which stores the new content under "one" with non-empty tokens. It then goes beyond the test: an update with the stale revision is the revision conflict |
| Kv.KeyValueStore.Read | internal/database/kv.go:17 | the backend's read behaves as the store contract over its current state |
| Kv.KeyValueStore.Write | internal/database/kv.go:18 | the backend's write changes the entries as the store contract says, and on failure leaves them unchanged |
| Kv.KeyValueStore.Delete | internal/database/kv.go:19 | the backend's delete changes the entries as the store contract says, and on failure leaves them unchanged |
| Kv.KvDatabase.constructor | internal/database/kv.go:27-32 | the engine wraps the given store |
| Kv.KvDatabase.Create | internal/database/kv.go:34-90 | the reply and the new entries are those of Protocol.Create on the store's state before the call |
| Kv.KvDatabase.Update | internal/database/kv.go:92-143 | the reply and the new entries are those of Protocol.Update on the state before the call |
| Kv.KvDatabase.Get | internal/database/kv.go:145-161 | the result is Protocol.Get of the current state, and nothing changes |
| Kv.KvDatabase.Delete | internal/database/kv.go:163-206 | the reply and the new entries are those of Protocol.Delete on the state before the call |
| Memory.InMemoryDatabase.constructor | internal/database/memory.go:17-21 | a new in-memory database holds no objects |
| Memory.InMemoryDatabase.Create | internal/database/memory.go:23-68 | the reply and the new map are those of Protocol.Create on a backend that never fails |
| Memory.InMemoryDatabase.Update | internal/database/memory.go:70-110 | the reply and the new map are those of Protocol.Update on a backend that never fails |
| Memory.InMemoryDatabase.Get | internal/database/memory.go:112-124 | the result is Protocol.Get of the map, which is unchanged |
| Memory.InMemoryDatabase.Delete | internal/database/memory.go:126-162 | the reply and the new map are those of Protocol.Delete on a backend that never fails |
| Client.NormalizeUri | internal/client/client.go:26-30 | the URI is unchanged or loses exactly one final '/', and it loses it exactly when it is longer than one character and ends in '/' |
| Client.ObjectUri | internal/client/client.go:136-143 | the URI is base + "/" + name followed by a query that reads back as the requested mode; it has no query exactly for create-or-replace |
| Client.GetObjectResult | internal/client/client.go:102-115 | 404 means no object and no error, any other status but 200 is the server's error, and 200 with a decoded body is that object |
| ClientCmd.ApplyOption | internal/client/cmd.go:74-94 | an option is unknown exactly when it is none of the three; it is refused exactly for `--if-not-exists` with create off or `--force-overwrite`/`--no-create` with replace off; an accepted one only turns a mode off or stripping on, `--if-not-exists` and `--force-overwrite` strip, `--if-not-exists` turns replace off and `--no-create` create off |
| ClientCmd.ParseOptions | internal/client/cmd.go:73-95 | reading the options left to right: an unknown option reported is one of them, the final flags only narrow the starting ones, and `--if-not-exists` or `--force-overwrite` among accepted options means stripping |
| ClientCmd.ParseKeepsCoherent | internal/client/cmd.go:73-95 | reading options keeps at least one of create and replace enabled, and stripping enabled whenever replace is off |
| ClientCmd.OptionsNeverDisableBoth | internal/client/cmd.go:123-132 | whatever the options, create and replace are never both off, so "Nothing to do" cannot happen |
| ClientCmd.AfterIfNotExists | internal/client/cmd.go:75-80 | once `--if-not-exists` is accepted, the flags stay create-only with stripping |
| ClientCmd.AfterNoCreate | internal/client/cmd.go:86-90 | once `--no-create` is accepted, the flags stay replace-only, and a later `--if-not-exists` is refused |
| ClientCmd.OptionEffects | internal/client/cmd.go:73-95 | accepted `--if-not-exists` ends create-only with stripping, accepted `--no-create` ends replace-only, and the two together are always refused |
| ClientCmd.ReplacingRefusedAfterIfNotExists | internal/client/cmd.go:75-90 | after `--if-not-exists`, a later `--no-create` or `--force-overwrite` makes reading fail |
| ClientCmd.ModeOf | internal/client/cmd.go:123-130 | both flags give create-or-replace, create alone gives create-only, and replace alone gives replace-only |
| ClientCmd.Stripped | internal/client/cmd.go:118-121 | the stripped object has an empty id and revision, and everything else is unchanged |
| ClientCmd.Apply | internal/client/cmd.go:69-133 | the outcome follows the option fold: an incompatible pair fails, an unknown option exits with 2 and prints it, a decoder error is returned; then "Missing kind" and "Missing name" are printed as they apply and the object is invalid, or the object (stripped when asked) is sent in the mode of the flags |
| ApiServer.PathFormat | internal/apiserver/server.go:36 | the regular expression as a grammar; a matching path has at least two characters, starts with '/' and does not end with one |
| ApiServer.AfterLeadIff | internal/apiserver/server.go:36 | the grammar after a segment's lead character accepts exactly the strings where each character is a slash or a segment character and every slash is followed by a lead character |
| ApiServer.PathFormatIff | internal/apiserver/server.go:36 | a path matches the regular expression exactly when it starts with '/' and satisfies that character-level description |
| ApiServer.PathFormatFacts | internal/apiserver/server.go:36 | a matching path starts with '/' and does not end with one, never has "//", has only segment characters between slashes, and the name after the first slash is not empty and starts with [a-z0-9] |
| ApiServer.Single | internal/apiserver/server.go:150-156 | a query value is taken exactly when its key holds exactly one value |
| ApiServer.DeleteId | internal/apiserver/server.go:148-156 | the id passed to Delete is the single `revision` value if there is one, else the single `id` value, else empty |
| ApiServer.PutAnswer | internal/apiserver/server.go:118-123 | a PUT answers 200 with the tokens exactly on success, and 400 with the error's message otherwise |
| ApiServer.ChangeAnswer | internal/apiserver/server.go:137-146 | a POST or DELETE answers 200 with the tokens on success, 404 with the message on DoesNotExist, and panics on any other error |
| ApiServer.Respond | internal/apiserver/server.go:58-167 | "/" answers GET with 200 and anything else with 400; GET "/_version" answers 200 with the version; a non-matching path is 400 "Invalid path"; a PUT or POST whose body does not decode is 400 "error reading input: ..." and one whose object names another path is 400 "Mismatched name", both without touching the store; the store changes only on a 200 answer to PUT, POST or DELETE on a matching path |
| ApiServer.ApiServer.constructor | internal/apiserver/server.go:25-27 | the server holds the given database |
| ApiServer.ApiServer.ServeHTTP | internal/apiserver/server.go:58-167 | the response and the store after the request are those Respond gives for the store before it |
| ApiServer.ReadsNeverWrite | internal/apiserver/server.go:58-104 | a request that is not PUT, POST or DELETE on a matching path leaves the store unchanged |
| ApiServer.GetAnswers | internal/apiserver/server.go:88-104 | GET answers 200 with the stored object, 404 "No such object" for an absent name, and panics exactly on a backend read fault |
| ApiServer.PutNeverPanics | internal/apiserver/server.go:105-123 | every PUT gets an answer |
| ApiServer.PutIsCreateOrReplace | internal/apiserver/server.go:105-123 | a well-formed PUT writes what Create(object, true) writes, answers 200 with its tokens exactly when that succeeds, and 400 with the error's text when it fails |
| ApiServer.PostIsUpdate | internal/apiserver/server.go:124-146 | a well-formed POST writes what Update writes, answers 200 with its tokens on success, 404 with the message on DoesNotExist, and panics on any other error |
| ApiServer.DeleteIsDelete | internal/apiserver/server.go:147-166 | every DELETE on a matching path runs Delete with the path's name, the id of DeleteId and an empty revision, writes what it writes, and answers 200, 404 or a panic as a POST does |
| ApiServer.PutIgnoresWriteMode | internal/apiserver/server.go:105-123 | whatever the query, a PUT of an object without tokens onto an existing name replaces it: 200, the stored id, a new revision, the new content |
| ApiServer.UpdateRefusalPanics | internal/apiserver/server.go:137-146 | a POST that the engine refuses with any error but DoesNotExist panics and writes nothing |
| ApiServer.DeleteRefusalPanics | internal/apiserver/server.go:157-166 | a DELETE that the engine refuses with any error but DoesNotExist panics and writes nothing |
| ApiServer.DeleteUsesRevisionAsId | internal/apiserver/server.go:147-157 | a DELETE with one `revision` value runs Delete with that value as the id and an empty revision |
| ApiServer.DeleteByRevisionPanics | internal/apiserver/server.go:147-166 | deleting a present object with its own non-empty revision, when that differs from its id, panics and deletes nothing |
| ApiServer.FaultlessGetNeverPanics | internal/apiserver/server.go:88-99 | on a store that never fails, every GET gets an answer |
| Commands.Sort | internal/commands/registry.go:31 | `slices.Sort`: the result is in order and has the same elements, each as often as before |
| Commands.SortedKeysSpec | internal/commands/registry.go:27-31 | the sorted names of a set are strictly increasing, are exactly the set's elements, and have its size |
| Commands.SortedListing | internal/commands/registry.go:27-31 | sorting the names, gathered once each in any order, gives the same sequence whatever the order |
| Commands.Registry.constructor | internal/commands/registry.go:15 | the registry starts empty |
| Commands.Registry.Register | internal/commands/registry.go:17-24 | a name already present gives exit status 2 and changes nothing; a new name is added with its command, which Get then returns |
| Commands.Registry.Get | internal/commands/registry.go:39-41 | the command registered under the name, or none exactly when the name is not registered |
| Commands.Registry.Names | internal/commands/registry.go:27-30 | every registered name is gathered exactly once |
| Commands.Registry.WriteUsages | internal/commands/registry.go:33-36 | the text is "Usage:\n" followed by the usages of the given names, in their order |
| Commands.Registry.PrintUsage | internal/commands/registry.go:26-37 | the text is "Usage:\n" followed by each command's usage in increasing order of the names |
| Commands.UsageListsEachCommandOnce | internal/commands/registry.go:26-37 | the listing names every registered command, each once, in strictly increasing order |

What the three big `Protocol` functions state:

- **Protocol.Create**
  - A failure is the zero response and writes nothing.
  - A success writes exactly the object under its name, with the caller's content.
  - A read fault is returned as it is.
  - An absent name is stamped with `now` and two fresh tokens.
  - An existing name without replace is the "already exists" conflict.
  - With replace, the match check decides. On success the object keeps the stored creation
    time and id and gets a new revision.
- **Protocol.Update**
  - A failure is the zero response and writes nothing.
  - An absent name is "does not exist, cannot update".
  - Otherwise the match check decides. On success the object keeps the stored creation time
    and id, gets a new revision, and the caller's content.
- **Protocol.Delete**
  - A failure writes nothing.
  - An absent name is "does not exist".
  - Otherwise the match check decides, then the backend's delete. A success removes exactly
    the name and answers with the deleted object's id and revision.

## Left out

- I/O, concurrency and the backend:
  - The mutex of both databases and the file lock of the files backend: each operation is
    one atomic step.
  - The files backend (`internal/database/files.go`) is not part of this model. The
    backend the model has in its place fails by the fault maps of `Protocol.Backend`: each
    key's read, write and delete either always succeed or always fail with the same error.
- ApiServer.ApiServer: in Go the server holds any `database.Database`, and the server
  command connects it to `NewInMemoryDatabase()` (`internal/apiserver/cmd.go:54-56`). The
  model fixes the field to a `Kv.KvDatabase`. A `KvDatabase` over a store that never fails
  behaves as the `InMemoryDatabase`, since both are proved equal to the `Protocol`
  functions, the latter on `Protocol.Faultless`.
- Protocol.StoreWrite: a failed write is assumed to write nothing. The files backend does
  not meet this: it truncates `<name>.json` before encoding, so a failed encode leaves an
  entry every later read of that key fails on. The promise of `Protocol.Create` and
  `Protocol.Update` that a failure writes nothing holds only for a backend that meets the
  assumption, such as the in-memory map.
- The clock and the random source:
  - `time.Now()` is the `now` parameter.
  - The draw from `crypto/rand` is a parameter. Its failure, a panic, is not modelled.
  - Freshness of draws is a hypothesis of the `Lifecycle` lemmas, not a property of the
    model.
- Values:
  - `Spec` and `Status` (`any`) are a JSON-like `Value` datatype, without floating-point
    numbers.
  - `time.Time` is an integer.
- Protocol.Get: when the backend's read fails with an error that is not DoesNotExist, the
  Go code returns that error together with whatever object the read produced. The model
  returns the zero object, because a failed read has no object here.
- HTTP and JSON plumbing is not modelled. This covers the server's encoding and decoding
  and content types; the decoder's outcome is part of the request, and a response is its
  status and what its body carries. It also covers:
  - logging;
  - the text of the version ping (`internal/versioning` is not part of this model);
  - the connection teardown after a panic;
  - the client's `GetVersion`, `getError` and HTTP transport, where the error text of a
    failed response is an input of `Client.GetObjectResult`;
  - `GetClientFromEnv` and the result of the final `WriteObject` call of `apply`:
    `ClientCmd.Apply` ends with the write it hands to the client.
- The commands: `version` and `get` of `internal/client/cmd.go`, the server command of
  `internal/apiserver/cmd.go`, and `cmd/vogon/vogon.go` are not part of this model.
- Commands.Registry.Register: the message printed for a duplicate name is not modelled,
  because it uses Go's `%#v` quoting. Only the exit status and the unchanged registry are.
- Commands.Command: only the text `PrintUsage` writes is kept. `Run` is not modelled.
- `RandomString` is defined identically in `kv.go` and `memory.go` and is modelled once.
- Test setup:
  - `NewInMemoryDatabase` returns an `*InMemoryDatabase`, but the shared test suite
    expects a `*KvDatabase`.
  - `memory_test.go` exercises an older interface.
  - The model follows the implementations, not the test setup.
