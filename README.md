# Zulip JavaScript API examples harness, modelled in Dafny

Zulip's OpenAPI documentation ships code examples for the `zulip-js`
client library. A small Node script checks them against a live server.
`ExamplesHandler()` keeps two pieces of state: a registry `examples`, keyed
by example name, and an array `response_data` of result records.

- `add_example(name, endpoint, status_code, func)` registers an example.
- `main()` awaits the eleven registered examples in a fixed order. Each one
  goes through `generate_validation_data`.
- `generate_validation_data` runs the example's callback against the
  client. It turns what the callback resolves to into records with
  `make_result_object`:
  - an array gives one record per element, named `<name>_<index>`;
  - any other value gives one record named `<name>`.
- Every record holds the name, the endpoint path (the text before the
  first `:` of the registered endpoint), the HTTP method (the text after
  that `:`), the status code as a decimal string, and the result
  unchanged.
- When every example has completed, `main` prints the whole array as JSON.
- A rejected call aborts the script, and nothing is printed.

The project has five modules:

- `Options`: the `Option` type.
- `Decimal`: `Number.prototype.toString` on integers (`NumberToString`).
  Its partner is a decimal parser, proved to invert it.
- `JsStrings`: `String.prototype.split` on one separator character
  (`Split`). Its partner is `Join`; the two are proved to be inverses.
- `ExamplesHarness`: the core.
  - `MakeResultObject` and the records one outcome yields (`Records`).
  - The functional specification of one example (`Step`) and of a whole
    run (`Drive`).
  - The class `ExamplesHandler`, whose fields `examples` and
    `responseData` are the closure's two variables. Its methods are
    `AddExample`, `GenerateValidationData` and `Run` (the script's
    `main`).
- `ZulipExamples`: the eleven registrations the script makes (`Registry`).
  - Each callback is reduced to the sequence of client calls it awaits,
    plus whether it resolves to the last response or to the array of
    responses.
  - The client is a function from a call to its response, or `None` when
    the call rejects.
  - `Program` is the top-level script: it constructs the handler, makes
    the eleven `add_example` calls in source order, then calls `main`.

The code takes pieces `[0]` and `[1]` of `split(':')`, so an endpoint with
no `:` gets an undefined method, and an endpoint with a second `:` drops
everything after it.

Three small functions are definitions rather than proved properties:
`ExamplesHarness.Lookup` is the property read `examples.<name>` (the
registered example, or undefined), `JsStrings.At` is indexing the pieces of
a split (the piece, or undefined past the end), and `ExamplesHarness.Names`
lists the names of a sequence of records.

## Model

| member | source | states |
|---|---|---|
| ExamplesHarness.RecordNameSuffix | zerver/openapi/javascript_examples.js:10-11 | the record name is `<name>_<decimal index>` whenever an index is given, index 0 included, and the bare name when no index is given |
| ExamplesHarness.IndexedNamesDistinct | zerver/openapi/javascript_examples.js:11 | an indexed name differs from the bare name, and two indexed names are equal exactly when their indices are |
| ExamplesHarness.MakeResultObjectFields | zerver/openapi/javascript_examples.js:10-19 | name as above. Endpoint: the prefix of the registered endpoint up to the first `:`. Method: the text from there to the next `:` or the end, present exactly when the endpoint contains a `:`. Status code: a string that parses back to the registered number. Result: passed through unchanged |
| ExamplesHarness.EndpointFields | zerver/openapi/javascript_examples.js:14-15 | for an endpoint `path:verb` with no other `:`, the record's endpoint is `path` and its method is `verb` |
| ExamplesHarness.IndexedRecordsShape | zerver/openapi/javascript_examples.js:26-28 | the `forEach` over an array of n values yields n records; record i is made from element i with index i |
| ExamplesHarness.RecordsShape | zerver/openapi/javascript_examples.js:23-31 | an array outcome yields one indexed record per element, in order; any other outcome yields exactly one unindexed record |
| ExamplesHarness.RecordsNamesDistinct | zerver/openapi/javascript_examples.js:23-31 | the records one outcome yields all have different names |
| ExamplesHarness.ExamplesHandler.constructor | zerver/openapi/javascript_examples.js:7-8 | the registry and the record array start empty |
| ExamplesHarness.ExamplesHandler.AddExample | zerver/openapi/javascript_examples.js:54-62 | the entry for the name is created or overwritten with the given fields; every other entry and the record array are unchanged |
| ExamplesHarness.ExamplesHandler.GenerateValidationData | zerver/openapi/javascript_examples.js:21-32 | succeeds exactly when the example exists and its callback resolves. On success the outcome's records are appended to the earlier ones, which stay unchanged; on failure nothing is appended. The registry is unchanged either way |
| ExamplesHarness.ExamplesHandler.Run | zerver/openapi/javascript_examples.js:34-52 | the record array grows by the run specification's records for the eleven names in order. The run prints (returns `Some`) exactly when every example completed, and prints the whole array |
| ExamplesHarness.DriveCompletedIff | zerver/openapi/javascript_examples.js:38-48 | a run of the first n examples completes exactly when each of them completes |
| ExamplesHarness.DriveRecords | zerver/openapi/javascript_examples.js:38-50 | a completed run holds the records of all its examples, concatenated in order |
| ExamplesHarness.DriveRecordsPrefix | zerver/openapi/javascript_examples.js:38-48 | what any run gathered, completed or not, is a prefix of that concatenation |
| ExamplesHarness.AllRecordsOrigin | zerver/openapi/javascript_examples.js:38-48 | every record of the concatenation was produced by one of the examples, one that completed |
| ExamplesHarness.DriveStopsAtFailure | zerver/openapi/javascript_examples.js:38-48 | when the k-th example fails, the run does not complete and holds exactly what the first k examples gathered: nothing from the k-th example or any later one |
| ExamplesHarness.DriveExtend | zerver/openapi/javascript_examples.js:38-48 | running one more completing example after a completed prefix appends exactly that example's records |
| ExamplesHarness.DriveNames | zerver/openapi/javascript_examples.js:38-50 | if each example contributes a known list of names, a run's names are a prefix of those lists concatenated in order, and all of them when the run completes |
| ExamplesHarness.FlatUpToMonotone | zerver/openapi/javascript_examples.js:38-48 | the names expected from more examples extend those expected from fewer |
| ExamplesHarness.NamesConcat | zerver/openapi/javascript_examples.js:27-30 | the names of appended records are appended names |
| Decimal.NatToDecimal | zerver/openapi/javascript_examples.js:16 | the digits of a non-negative integer are canonical (no leading zero), and begin with `0` only for zero |
| Decimal.DecimalRoundTrip | zerver/openapi/javascript_examples.js:16 | reading the digits of a non-negative integer back gives the integer |
| Decimal.CanonicalRoundTrip | zerver/openapi/javascript_examples.js:16 | writing out the value of a canonical digit string gives the string back |
| Decimal.NatToDecimalInjective | zerver/openapi/javascript_examples.js:16 | two non-negative integers have the same digits exactly when they are equal |
| Decimal.NumberToStringRoundTrip | zerver/openapi/javascript_examples.js:16 | the status-code string, sign included, parses back to the registered integer |
| JsStrings.Split | zerver/openapi/javascript_examples.js:14-15 | `split` always yields at least one piece, so piece `[0]` always exists |
| JsStrings.SplitPieces | zerver/openapi/javascript_examples.js:14-15 | no piece contains the separator, and joining the pieces with it gives back the string |
| JsStrings.SplitJoin | zerver/openapi/javascript_examples.js:14-15 | splitting the join of separator-free pieces gives back the pieces |
| JsStrings.SplitFields | zerver/openapi/javascript_examples.js:14-15 | piece 0 is the text before the first separator. There is a piece 1 exactly when the separator occurs, and it is the text between the first separator and the next (or the end) |
| ZulipExamples.AwaitAll | zerver/openapi/javascript_examples.js:74-97 | awaiting a callback's calls in order resolves exactly when every call succeeds, to the responses in call order |
| ZulipExamples.PerformIff | zerver/openapi/javascript_examples.js:74-201 | a registered callback resolves exactly when every client call it awaits succeeds |
| ZulipExamples.PerformSucceeds | zerver/openapi/javascript_examples.js:74-201 | with every call succeeding, a callback that returns the last response yields one value, and one that returns the array yields one value per call |
| ZulipExamples.RegisteredShape | zerver/openapi/javascript_examples.js:74-201 | each name `main` awaits is registered under itself. Only `send_message` and `get_users` resolve to an array, each of two responses |
| ZulipExamples.BodyNames | zerver/openapi/javascript_examples.js:23-31 | an example that resolves contributes `<name>_0`, `<name>_1` for a two-response array, and `<name>` otherwise |
| ZulipExamples.ExampleStep | zerver/openapi/javascript_examples.js:38-48 | with every call succeeding, each awaited example completes; when it completes, it contributes the names `ExpectedNamesOf` gives |
| ZulipExamples.ExpectedNamesSpelled | zerver/openapi/javascript_examples.js:38-48 | the expected names of the eleven examples concatenated in `main`'s order are the thirteen names of `ExpectedNames`, and those of the first four are its first five |
| ZulipExamples.StepNames | zerver/openapi/javascript_examples.js:38-48 | each example `main` awaits contributes, whenever it completes, the names the table lists for it |
| ZulipExamples.ExampleCompletesIff | zerver/openapi/javascript_examples.js:38-48 | an awaited example completes exactly when every client call of its registered callback succeeds |
| ZulipExamples.IssuedByFails | zerver/openapi/javascript_examples.js:74-201 | a rejected client call makes the example that `IssuedBy` assigns to it fail (`register_queue` for the queue registration, which `delete_queue` also issues) |
| ZulipExamples.RunCompletesIff | zerver/openapi/javascript_examples.js:34-52 | the run prints its array exactly when every client call succeeds |
| ZulipExamples.AllSucceed | zerver/openapi/javascript_examples.js:34-52 | when every call succeeds, the printed array's names are `send_message_0`, `send_message_1`, then one name per example, with `get_users_0` and `get_users_1` in place of `get_users`: thirteen records in `main`'s order |
| ZulipExamples.ExpectedNamesDistinct | zerver/openapi/javascript_examples.js:10-31 | the thirteen names the records of a successful run carry are pairwise different |
| ZulipExamples.PrintedNamesDistinct | zerver/openapi/javascript_examples.js:34-52 | when every client call succeeds (exactly when the array is printed) the run completes, and no two of the printed records have the same name |
| ZulipExamples.GetMessagesStops | zerver/openapi/javascript_examples.js:38-42 | a rejected `get_messages` call aborts the run, which holds only what the four examples before it gathered |
| ZulipExamples.GetMessagesFails | zerver/openapi/javascript_examples.js:38-50 | a rejected `get_messages` call means nothing is printed. The gathered names are a prefix of the first five expected ones, and exactly those five when every other call succeeds; nothing from a later example appears |
| ZulipExamples.FirstFourComplete | zerver/openapi/javascript_examples.js:38-41 | when every call except `get_messages` succeeds, the four examples before it complete |
| ZulipExamples.CallsAvoidGetMessages | zerver/openapi/javascript_examples.js:74-133 | none of the four examples before `get_messages` issues the `get_messages` call |
| ZulipExamples.SendMessageRegistered | zerver/openapi/javascript_examples.js:74 | `send_message` is registered with endpoint `/messages:post` and status code 200 |
| ZulipExamples.SendMessageRecordFields | zerver/openapi/javascript_examples.js:10-19 | every `send_message` record reports endpoint `/messages`, method `post` and status code `"200"` |
| ZulipExamples.MessagesPostFields | zerver/openapi/javascript_examples.js:14-16 | a record made from an example registered at `/messages:post` with status 200 reports `/messages`, `post` and `"200"` |
| ZulipExamples.Program | zerver/openapi/javascript_examples.js:70-203 | the script prints exactly when the run of the eleven registered examples in `main`'s order completes, and prints that run's records |

## Left out

- The `zulip-js` library and the server are not part of this model. The
  client is a pure function from a call to a response, or to a rejection.
  A server whose answers change between calls is therefore not modelled.
- The request parameters the callbacks build are left out, and so is the
  `queue_id` that `delete_queue` passes from its `register` response to
  `deregister`. Each callback is modelled only as its sequence of calls
  and the shape of what it returns.
- Reading `ZULIP_USERNAME`, `ZULIP_API_KEY` and `ZULIP_REALM` from the
  environment (lines 2-6) is left out, and so is connecting the client
  (lines 35-36). Both are I/O; a failed connection would abort before any
  example runs.
- `JSON.stringify` and `console.log` (line 50) are left out. `Run` and
  `Program` return the array that would be printed, or `None`.
- async/await scheduling is left out. The examples run strictly one after
  another, so an outcome is modelled as the value the promise resolves to,
  or its rejection.
- `Array.isArray` is modelled by the outcome's tag: `Multi` for an array,
  `Single` for any other value.
- ZulipExamples.Perform: a callback that returns one response is assumed to
  resolve to a value that is not an array, since the Zulip server answers
  with JSON objects. If a response were an array, line 23 would take the
  array branch and push one record per element. The thirteen-record count
  of `AllSucceed` rests on this assumption.
- ExamplesHarness.Lookup: a name that is not registered reads as undefined.
  In JavaScript, an inherited property such as `constructor` would read as
  a function instead. The outcome is the same, because its `.func` is
  undefined and the call throws. None of the eleven names `main` reads is
  such a name.
- ExamplesHarness.ExamplesHandler.Run walks the constant list of eleven
  names with a loop instead of eleven separate `await` statements. The
  order and the effect are the same.
- Decimal.NumberToString: does not model how JavaScript formats numbers
  that are not exact integers, or integers of magnitude 10^21 and above,
  which it writes in exponent notation. The status code is treated as an
  exact integer. Every registered code is 200.
- JsStrings.Split: models `split` with a single-character separator only,
  which is the one form the harness uses.
