/**
 * The example-registration and result-normalisation harness returned by
 * `ExamplesHandler()`: a registry of named examples, the flat result record
 * built for each value an example yields, and the driver that runs the
 * registered examples in a fixed order, appending their records to one
 * output array.
 */
module ExamplesHarness {
  import opened Options
  import opened Decimal
  import opened JsStrings

  /** A registered example; `endpoint` encodes "path:method". `Op` is the example's callback. */
  datatype Example<Op> = Example(name: string, endpoint: string, statusCode: int, func: Op)

  /** One element of the printed array; `httpMethod` (the JavaScript `method` field) is `undefined` when the endpoint has no `:`. */
  datatype ResultRecord<V> =
    ResultRecord(name: string, endpoint: string, httpMethod: Option<string>, statusCode: string, result: V)

  /** What an example's callback resolves to: one value, or an array of values. */
  datatype Outcome<V> = Single(value: V) | Multi(values: seq<V>)

  /** The names of the examples `main` runs. */
  const SendMessage: string := "send_message"
  const CreateUser: string := "create_user"
  const GetCustomEmoji: string := "get_custom_emoji"
  const DeleteQueue: string := "delete_queue"
  const GetMessages: string := "get_messages"
  const GetOwnUser: string := "get_own_user"
  const GetStreamId: string := "get_stream_id"
  const GetStreamTopics: string := "get_stream_topics"
  const GetSubscriptions: string := "get_subscriptions"
  const GetUsers: string := "get_users"
  const RegisterQueue: string := "register_queue"

  /** The example names `main` awaits, in order. */
  const ExampleOrder: seq<string> := [
    SendMessage, CreateUser, GetCustomEmoji, DeleteQueue, GetMessages, GetOwnUser,
    GetStreamId, GetStreamTopics, GetSubscriptions, GetUsers, RegisterQueue]

  /** `full` is `base`, an underscore, then the canonical decimal numeral of `index`. */
  predicate IsIndexedName(full: string, base: string, index: nat) {
    && |full| >= |base| + 2
    && full[..|base|] == base
    && full[|base|] == '_'
    && IsCanonical(full[|base| + 1..])
    && DecimalValue(full[|base| + 1..]) == index
  }

  /** The record name: the example's name, then `_` and the index when an index is given. */
  function RecordName(base: string, count: Option<nat>): string {
    match count
    case None => base
    case Some(i) => base + "_" + NatToDecimal(i)
  }

  /** The name is suffixed whenever an index is given, index 0 included, and is the bare name otherwise. */
  lemma RecordNameSuffix(base: string, count: Option<nat>)
    ensures count.None? ==> RecordName(base, count) == base
    ensures count.Some? ==> IsIndexedName(RecordName(base, count), base, count.value)
  {
    if count.Some? {
      var name := RecordName(base, count);
      assert name[|base| + 1..] == NatToDecimal(count.value);
      DecimalRoundTrip(count.value);
    }
  }

  /** `make_result_object(example, result, count)`; `None` stands for the default `count = false`. */
  function MakeResultObject<V, Op>(example: Example<Op>, result: V, count: Option<nat>): ResultRecord<V> {
    var parts := Split(example.endpoint, ':');
    ResultRecord(
      RecordName(example.name, count), parts[0], At(parts, 1),
      NumberToString(example.statusCode), result)
  }

  /**
   * The fields of a result record: the name is suffixed exactly when an index
   * is given (index 0 included); the endpoint is the text before the first
   * ':' and the method the text between it and the next ':' (undefined when
   * there is no ':'); the status code reads back as the registered number;
   * the payload is passed through unchanged.
   */
  lemma MakeResultObjectFields<V, Op>(example: Example<Op>, result: V, count: Option<nat>)
    ensures var r := MakeResultObject(example, result, count);
      && (count.None? ==> r.name == example.name)
      && (count.Some? ==> IsIndexedName(r.name, example.name, count.value))
      && ':' !in r.endpoint && |r.endpoint| <= |example.endpoint|
      && r.endpoint == example.endpoint[..|r.endpoint|]
      && (|r.endpoint| == |example.endpoint| || example.endpoint[|r.endpoint|] == ':')
      && (r.httpMethod.Some? <==> ':' in example.endpoint)
      && (r.httpMethod.Some? ==>
            var k := |r.endpoint| + 1 + |r.httpMethod.value|;
            && ':' !in r.httpMethod.value
            && k <= |example.endpoint|
            && example.endpoint[|r.endpoint| + 1..k] == r.httpMethod.value
            && (k == |example.endpoint| || example.endpoint[k] == ':'))
      && ParseInteger(r.statusCode) == Some(example.statusCode)
      && r.result == result
  {
    RecordNameSuffix(example.name, count);
    SplitFields(example.endpoint, ':');
    NumberToStringRoundTrip(example.statusCode);
  }

  /** The records the `forEach` over an array outcome pushes, element i suffixed with i. */
  function IndexedRecords<V, Op>(example: Example<Op>, vs: seq<V>): seq<ResultRecord<V>>
    decreases |vs|
  {
    if vs == [] then []
    else IndexedRecords(example, vs[..|vs| - 1]) + [MakeResultObject(example, vs[|vs| - 1], Some(|vs| - 1))]
  }

  /** The records `generate_validation_data` pushes for one outcome. */
  function Records<V, Op>(example: Example<Op>, outcome: Outcome<V>): seq<ResultRecord<V>> {
    match outcome
    case Single(v) => [MakeResultObject(example, v, None)]
    case Multi(vs) => IndexedRecords(example, vs)
  }

  /**
   * One call of `generate_validation_data`: `None` when the example is
   * `undefined` (reading its `func` throws) or its callback rejects.
   */
  function Step<V, Op>(example: Option<Example<Op>>, invoke: Op -> Option<Outcome<V>>): Option<seq<ResultRecord<V>>> {
    match example
    case None => None
    case Some(e) =>
      match invoke(e.func)
      case None => None
      case Some(outcome) => Some(Records(e, outcome))
  }

  /** `examples[name]`, `undefined` for an unregistered name. */
  function Lookup<Op>(examples: map<string, Example<Op>>, name: string): (r: Option<Example<Op>>)
    ensures r.Some? <==> name in examples
    ensures r.Some? ==> r.value == examples[name]
  {
    if name in examples then Some(examples[name]) else None
  }

  /** What running the named examples in order appended, and whether every one of them completed. */
  datatype RunResult<V> = RunResult(records: seq<ResultRecord<V>>, completed: bool)

  /** Runs the first `n` of `names` in order against `examples`; the first failing example stops the run. */
  function Drive<V, Op>(examples: map<string, Example<Op>>, names: seq<string>, n: nat, invoke: Op -> Option<Outcome<V>>): RunResult<V>
    requires n <= |names|
  {
    if n == 0 then RunResult([], true)
    else
      var prev := Drive(examples, names, n - 1, invoke);
      if !prev.completed then prev
      else
        match Step(Lookup(examples, names[n - 1]), invoke)
        case None => RunResult(prev.records, false)
        case Some(rs) => RunResult(prev.records + rs, true)
  }

  /** The records of each of the first `n` examples that completed, concatenated in order. */
  function AllRecords<V, Op>(examples: map<string, Example<Op>>, names: seq<string>, n: nat, invoke: Op -> Option<Outcome<V>>): seq<ResultRecord<V>>
    requires n <= |names|
  {
    if n == 0 then []
    else
      var step := Step(Lookup(examples, names[n - 1]), invoke);
      AllRecords(examples, names, n - 1, invoke) + (if step.Some? then step.value else [])
  }

  /** One record per array element, in the elements' order, element i suffixed with i. */
  lemma {:induction false} IndexedRecordsShape<V, Op>(example: Example<Op>, vs: seq<V>)
    ensures |IndexedRecords(example, vs)| == |vs|
    ensures forall i | 0 <= i < |vs| :: IndexedRecords(example, vs)[i] == MakeResultObject(example, vs[i], Some(i))
    decreases |vs|
  {
    if vs != [] {
      var init := vs[..|vs| - 1];
      IndexedRecordsShape(example, init);
      assert forall i | 0 <= i < |init| :: init[i] == vs[i];
    }
  }

  /** A single value gives one unsuffixed record; an array of n values gives n records, element i suffixed with i. */
  lemma RecordsShape<V, Op>(example: Example<Op>, outcome: Outcome<V>)
    ensures outcome.Single? ==> Records(example, outcome) == [MakeResultObject(example, outcome.value, None)]
    ensures outcome.Multi? ==>
      && |Records(example, outcome)| == |outcome.values|
      && forall i | 0 <= i < |outcome.values| ::
           Records(example, outcome)[i] == MakeResultObject(example, outcome.values[i], Some(i))
  {
    if outcome.Multi? {
      IndexedRecordsShape(example, outcome.values);
    }
  }

  /** For an endpoint written "path:verb" with no other ':', the record carries exactly that path and verb. */
  lemma EndpointFields<V, Op>(example: Example<Op>, result: V, count: Option<nat>, path: string, verb: string)
    requires ':' !in path && ':' !in verb
    requires example.endpoint == path + ":" + verb
    ensures MakeResultObject(example, result, count).endpoint == path
    ensures MakeResultObject(example, result, count).httpMethod == Some(verb)
  {
    var parts := [path, verb];
    assert Join(parts, ':') == example.endpoint;
    SplitJoin(parts, ':');
  }

  /** Different indices give different names, and an indexed name never equals the bare one. */
  lemma IndexedNamesDistinct(base: string, i: nat, j: nat)
    ensures RecordName(base, Some(i)) != base
    ensures RecordName(base, Some(i)) == RecordName(base, Some(j)) <==> i == j
  {
    var ni, nj := RecordName(base, Some(i)), RecordName(base, Some(j));
    RecordNameSuffix(base, Some(i));
    RecordNameSuffix(base, Some(j));
    if ni == nj {
      assert ni[|base| + 1..] == nj[|base| + 1..];
    }
  }

  /** Every record pushed for one outcome has its own name. */
  lemma RecordsNamesDistinct<V, Op>(example: Example<Op>, outcome: Outcome<V>)
    ensures forall i, j | 0 <= i < j < |Records(example, outcome)| ::
      Records(example, outcome)[i].name != Records(example, outcome)[j].name
  {
    if outcome.Multi? {
      RecordsShape(example, outcome);
      forall i, j | 0 <= i < j < |outcome.values|
        ensures Records(example, outcome)[i].name != Records(example, outcome)[j].name
      {
        IndexedNamesDistinct(example.name, i, j);
      }
    }
  }

  /** A run completes exactly when every example it reaches is registered and its callback resolves. */
  lemma {:induction false} DriveCompletedIff<V, Op>(examples: map<string, Example<Op>>, names: seq<string>, n: nat, invoke: Op -> Option<Outcome<V>>)
    requires n <= |names|
    ensures Drive(examples, names, n, invoke).completed <==>
      forall i | 0 <= i < n :: Step(Lookup(examples, names[i]), invoke).Some?
  {
    if n > 0 {
      DriveCompletedIff(examples, names, n - 1, invoke);
    }
  }

  /** The names of a sequence of records, in order. */
  function Names<V>(records: seq<ResultRecord<V>>): (names: seq<string>)
    ensures |names| == |records|
    ensures forall i | 0 <= i < |records| :: names[i] == records[i].name
  {
    seq(|records|, i requires 0 <= i < |records| => records[i].name)
  }

  /** Whatever a run appended is the start of what all of its examples together would append. */
  lemma {:induction false} DriveRecordsPrefix<V, Op>(examples: map<string, Example<Op>>, names: seq<string>, n: nat, invoke: Op -> Option<Outcome<V>>)
    requires n <= |names|
    ensures Drive(examples, names, n, invoke).records <= AllRecords(examples, names, n, invoke)
  {
    if n > 0 {
      var prev, all := Drive(examples, names, n - 1, invoke), AllRecords(examples, names, n - 1, invoke);
      var step := Step(Lookup(examples, names[n - 1]), invoke);
      var allN := AllRecords(examples, names, n, invoke);
      assert allN == all + (if step.Some? then step.value else []);
      if prev.completed {
        DriveRecords(examples, names, n - 1, invoke);
      } else {
        DriveRecordsPrefix(examples, names, n - 1, invoke);
        assert prev.records == allN[..|prev.records|];
      }
    }
  }

  /** Every record of the first `n` examples was pushed by one of them that completed. */
  lemma {:induction false} AllRecordsOrigin<V, Op>(examples: map<string, Example<Op>>, names: seq<string>, n: nat, invoke: Op -> Option<Outcome<V>>, r: ResultRecord<V>)
    requires n <= |names|
    requires r in AllRecords(examples, names, n, invoke)
    ensures exists i | 0 <= i < n :: Step(Lookup(examples, names[i]), invoke).Some? && r in Step(Lookup(examples, names[i]), invoke).value
  {
    var step := Step(Lookup(examples, names[n - 1]), invoke);
    if r in AllRecords(examples, names, n - 1, invoke) {
      AllRecordsOrigin(examples, names, n - 1, invoke, r);
    } else {
      assert step.Some? && r in step.value;
    }
  }

  /** A completed run appended every example's records, in the listed order. */
  lemma {:induction false} DriveRecords<V, Op>(examples: map<string, Example<Op>>, names: seq<string>, n: nat, invoke: Op -> Option<Outcome<V>>)
    requires n <= |names|
    requires Drive(examples, names, n, invoke).completed
    ensures Drive(examples, names, n, invoke).records == AllRecords(examples, names, n, invoke)
  {
    if n > 0 {
      DriveRecords(examples, names, n - 1, invoke);
    }
  }

  /**
   * When the k-th example fails, the run does not complete and holds nothing
   * from the k-th example or any later one.
   */
  lemma {:induction false} DriveStopsAtFailure<V, Op>(examples: map<string, Example<Op>>, names: seq<string>, n: nat, invoke: Op -> Option<Outcome<V>>, k: nat)
    requires k < n <= |names|
    requires Step(Lookup(examples, names[k]), invoke).None?
    ensures !Drive(examples, names, n, invoke).completed
    ensures Drive(examples, names, n, invoke).records == Drive(examples, names, k, invoke).records
  {
    if k < n - 1 {
      DriveStopsAtFailure(examples, names, n - 1, invoke, k);
    }
  }

  /** The first `n` of the given name lists, concatenated in order. */
  function FlatUpTo(lists: seq<seq<string>>, n: nat): seq<string>
    requires n <= |lists|
  {
    if n == 0 then [] else FlatUpTo(lists, n - 1) + lists[n - 1]
  }

  /** Concatenating more of the lists only extends the result. */
  lemma {:induction false} FlatUpToMonotone(lists: seq<seq<string>>, m: nat, n: nat)
    requires m <= n <= |lists|
    ensures FlatUpTo(lists, m) <= FlatUpTo(lists, n)
    decreases n
  {
    if m < n {
      FlatUpToMonotone(lists, m, n - 1);
    }
  }

  lemma NamesConcat<V>(a: seq<ResultRecord<V>>, b: seq<ResultRecord<V>>)
    ensures Names(a + b) == Names(a) + Names(b)
  {
  }

  /**
   * If the k-th example, whenever it completes, contributes the names
   * `lists[k]`, then the names a run gathered are those lists concatenated
   * in order and cut off where the run stopped, and all of them when it
   * completed.
   */
  lemma {:induction false} DriveNames<V, Op>(examples: map<string, Example<Op>>, names: seq<string>, n: nat, invoke: Op -> Option<Outcome<V>>,
                                             lists: seq<seq<string>>)
    requires n <= |names| == |lists|
    requires forall k | 0 <= k < |names| :: Step(Lookup(examples, names[k]), invoke).Some? ==>
      Names(Step(Lookup(examples, names[k]), invoke).value) == lists[k]
    ensures Names(Drive(examples, names, n, invoke).records) <= FlatUpTo(lists, n)
    ensures Drive(examples, names, n, invoke).completed ==> Names(Drive(examples, names, n, invoke).records) == FlatUpTo(lists, n)
  {
    if n > 0 {
      var prev := Drive(examples, names, n - 1, invoke);
      var step := Step(Lookup(examples, names[n - 1]), invoke);
      DriveNames(examples, names, n - 1, invoke, lists);
      FlatUpToMonotone(lists, n - 1, n);
      if prev.completed && step.Some? {
        NamesConcat(prev.records, step.value);
      } else {
        assert Drive(examples, names, n, invoke).records == prev.records;
      }
    }
  }

  /** Running one more example after a completed prefix appends that example's records to the output. */
  lemma DriveExtend<V, Op>(examples: map<string, Example<Op>>, names: seq<string>, n: nat, invoke: Op -> Option<Outcome<V>>,
                           base: seq<ResultRecord<V>>, data: seq<ResultRecord<V>>)
    requires n < |names|
    requires Drive(examples, names, n, invoke).completed
    requires data == base + Drive(examples, names, n, invoke).records
    requires Step(Lookup(examples, names[n]), invoke).Some?
    ensures Drive(examples, names, n + 1, invoke).completed
    ensures data + Step(Lookup(examples, names[n]), invoke).value == base + Drive(examples, names, n + 1, invoke).records
  {
    var prev, rs := Drive(examples, names, n, invoke).records, Step(Lookup(examples, names[n]), invoke).value;
    assert Drive(examples, names, n + 1, invoke) == RunResult(prev + rs, true);
    assert (base + prev) + rs == base + (prev + rs);
  }

  /**
   * The harness state: the `examples` registry and the `response_data`
   * array, both owned by one `ExamplesHandler()` closure.
   */
  class ExamplesHandler<V, Op> {
    var examples: map<string, Example<Op>>
    var responseData: seq<ResultRecord<V>>

    constructor ()
      ensures examples == map[] && responseData == []
    {
      examples := map[];
      responseData := [];
    }

    /** `add_example`: the last registration of a name wins; no other entry and no record changes. */
    method AddExample(name: string, endpoint: string, statusCode: int, func: Op)
      modifies this
      ensures examples == old(examples)[name := Example(name, endpoint, statusCode, func)]
      ensures responseData == old(responseData)
    {
      examples := examples[name := Example(name, endpoint, statusCode, func)];
    }

    /**
     * `generate_validation_data(client, example)`: awaits the callback and
     * appends one record per value it yields. `ok` is false when the call would
     * reject; then nothing is appended.
     */
    method GenerateValidationData(example: Option<Example<Op>>, invoke: Op -> Option<Outcome<V>>) returns (ok: bool)
      modifies this
      ensures ok <==> Step(example, invoke).Some?
      ensures responseData == old(responseData) + (if ok then Step(example, invoke).value else [])
      ensures examples == old(examples)
    {
      if example.None? {
        return false;
      }
      var e := example.value;
      var result := invoke(e.func);
      if result.None? {
        return false;
      }
      match result.value {
        case Multi(vs) =>
          var index := 0;
          while index < |vs|
            invariant 0 <= index <= |vs|
            invariant responseData == old(responseData) + IndexedRecords(e, vs[..index])
            invariant examples == old(examples)
          {
            assert vs[..index + 1][..index] == vs[..index];
            responseData := responseData + [MakeResultObject(e, vs[index], Some(index))];
            index := index + 1;
          }
          assert vs[..index] == vs;
        case Single(v) =>
          responseData := responseData + [MakeResultObject(e, v, None)];
      }
      ok := true;
    }

    /**
     * `main`: awaits the eleven examples in the fixed order. A rejection ends
     * the run with no output; otherwise the output is the whole array.
     */
    method Run(invoke: Op -> Option<Outcome<V>>) returns (output: Option<seq<ResultRecord<V>>>)
      modifies this
      ensures examples == old(examples)
      ensures responseData == old(responseData) + Drive(old(examples), ExampleOrder, |ExampleOrder|, invoke).records
      ensures output.Some? <==> Drive(old(examples), ExampleOrder, |ExampleOrder|, invoke).completed
      ensures output.Some? ==> output.value == responseData
    {
      for i := 0 to |ExampleOrder|
        invariant examples == old(examples)
        invariant Drive(examples, ExampleOrder, i, invoke).completed
        invariant responseData == old(responseData) + Drive(examples, ExampleOrder, i, invoke).records
      {
        ghost var before := responseData;
        var ok := GenerateValidationData(Lookup(examples, ExampleOrder[i]), invoke);
        if !ok {
          DriveStopsAtFailure(examples, ExampleOrder, |ExampleOrder|, invoke, i);
          return None;
        }
        DriveExtend(examples, ExampleOrder, i, invoke, old(responseData), before);
      }
      output := Some(responseData);
    }
  }
}
