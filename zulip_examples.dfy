/**
 * The eleven examples the script registers and `main` runs, reduced to what
 * the harness sees of them: each callback's sequence of client calls and
 * whether it resolves to the last response or to an array of responses.
 */
module ZulipExamples {
  import opened Options
  import opened Decimal
  import opened ExamplesHarness

  /** The `zulip-js` client calls the example callbacks make. */
  datatype Request =
    | SendStreamMessage          // client.messages.send, to a stream
    | SendPrivateMessage         // client.messages.send, to a user
    | CreateUserRequest          // client.users.create
    | RetrieveEmoji              // client.emojis.retrieve
    | RegisterMessageQueue       // client.queues.register for message events
    | DeregisterQueue            // client.queues.deregister
    | RetrieveMessages           // client.messages.retrieve
    | GetOwnProfile              // client.users.me.getProfile
    | GetStreamIdRequest         // client.streams.getStreamId
    | RetrieveTopics             // client.streams.topics.retrieve
    | RetrieveSubscriptions      // client.streams.subscriptions.retrieve
    | RetrieveUsers              // client.users.retrieve
    | RetrieveUsersWithGravatar  // client.users.retrieve with client_gravatar

  /**
   * An example callback: the client calls it awaits in order, and whether it
   * resolves to the last response alone or to the array of all responses.
   */
  datatype Body =
    | ReturnsLast(before: seq<Request>, last: Request)
    | ReturnsAll(calls: seq<Request>)

  /** Awaits `calls` in order; the first rejected call rejects the whole sequence. */
  function AwaitAll<V>(calls: seq<Request>, client: Request -> Option<V>): (r: Option<seq<V>>)
    ensures r.Some? <==> forall i | 0 <= i < |calls| :: client(calls[i]).Some?
    ensures r.Some? ==> |r.value| == |calls| && forall i | 0 <= i < |calls| :: r.value[i] == client(calls[i]).value
    decreases |calls|
  {
    if calls == [] then Some([])
    else
      match client(calls[0])
      case None => None
      case Some(v) =>
        match AwaitAll(calls[1..], client)
        case None => None
        case Some(vs) => Some([v] + vs)
  }

  /** Runs a callback against the client: what its promise resolves to, or `None` if it rejects. */
  function Perform<V>(body: Body, client: Request -> Option<V>): Option<Outcome<V>> {
    match body
    case ReturnsLast(before, last) =>
      if AwaitAll(before, client).None? then None
      else if client(last).None? then None
      else Some(Single(client(last).value))
    case ReturnsAll(calls) =>
      match AwaitAll(calls, client)
      case None => None
      case Some(vs) => Some(Multi(vs))
  }

  /** The callback runner `main` hands the examples: every callback is given the same client. */
  function Invoke<V>(client: Request -> Option<V>): Body -> Option<Outcome<V>> {
    body => Perform(body, client)
  }

  /** The registry after the script's eleven `add_example` calls. */
  function Registry(): map<string, Example<Body>> {
    map[
      SendMessage := Example(SendMessage, "/messages:post", 200, ReturnsAll([SendStreamMessage, SendPrivateMessage])),
      CreateUser := Example(CreateUser, "/users:post", 200, ReturnsLast([], CreateUserRequest)),
      GetCustomEmoji := Example(GetCustomEmoji, "/realm/emoji:get", 200, ReturnsLast([], RetrieveEmoji)),
      DeleteQueue := Example(DeleteQueue, "/events:delete", 200, ReturnsLast([RegisterMessageQueue], DeregisterQueue)),
      GetMessages := Example(GetMessages, "/messages:get", 200, ReturnsLast([], RetrieveMessages)),
      GetOwnUser := Example(GetOwnUser, "/users/me:get", 200, ReturnsLast([], GetOwnProfile)),
      GetStreamId := Example(GetStreamId, "/get_stream_id:get", 200, ReturnsLast([], GetStreamIdRequest)),
      GetStreamTopics := Example(GetStreamTopics, "/users/me/{stream_id}/topics:get", 200, ReturnsLast([], RetrieveTopics)),
      GetSubscriptions := Example(GetSubscriptions, "/users/me/subscriptions:get", 200, ReturnsLast([], RetrieveSubscriptions)),
      GetUsers := Example(GetUsers, "/users:get", 200, ReturnsAll([RetrieveUsers, RetrieveUsersWithGravatar])),
      RegisterQueue := Example(RegisterQueue, "/register:post", 200, ReturnsLast([], RegisterMessageQueue))
    ]
  }

  /** The whole script: create the handler, register the examples, run `main`. */
  method Program<V>(client: Request -> Option<V>) returns (output: Option<seq<ResultRecord<V>>>)
    ensures output.Some? <==> Drive(Registry(), ExampleOrder, |ExampleOrder|, Invoke(client)).completed
    ensures output.Some? ==> output.value == Drive(Registry(), ExampleOrder, |ExampleOrder|, Invoke(client)).records
  {
    var handler := new ExamplesHandler<V, Body>();
    handler.AddExample(SendMessage, "/messages:post", 200, ReturnsAll([SendStreamMessage, SendPrivateMessage]));
    handler.AddExample(CreateUser, "/users:post", 200, ReturnsLast([], CreateUserRequest));
    handler.AddExample(GetCustomEmoji, "/realm/emoji:get", 200, ReturnsLast([], RetrieveEmoji));
    handler.AddExample(DeleteQueue, "/events:delete", 200, ReturnsLast([RegisterMessageQueue], DeregisterQueue));
    handler.AddExample(GetMessages, "/messages:get", 200, ReturnsLast([], RetrieveMessages));
    handler.AddExample(GetOwnUser, "/users/me:get", 200, ReturnsLast([], GetOwnProfile));
    handler.AddExample(GetStreamId, "/get_stream_id:get", 200, ReturnsLast([], GetStreamIdRequest));
    handler.AddExample(GetStreamTopics, "/users/me/{stream_id}/topics:get", 200, ReturnsLast([], RetrieveTopics));
    handler.AddExample(GetSubscriptions, "/users/me/subscriptions:get", 200, ReturnsLast([], RetrieveSubscriptions));
    handler.AddExample(GetUsers, "/users:get", 200, ReturnsAll([RetrieveUsers, RetrieveUsersWithGravatar]));
    handler.AddExample(RegisterQueue, "/register:post", 200, ReturnsLast([], RegisterMessageQueue));
    assert handler.examples == Registry();
    assert handler.responseData == [];
    output := handler.Run(Invoke(client));
  }

  /**
   * The names the printed array holds when every client call succeeds:
   * `send_message_0`, `send_message_1`, `create_user`, ..., `get_users_0`,
   * `get_users_1`, `register_queue`.
   */
  const ExpectedNames: seq<string> := [
    SendMessage + "_0", SendMessage + "_1", CreateUser, GetCustomEmoji, DeleteQueue,
    GetMessages, GetOwnUser, GetStreamId, GetStreamTopics, GetSubscriptions,
    GetUsers + "_0", GetUsers + "_1", RegisterQueue]

  /** The names one example contributes: two indexed names for the two examples that return arrays. */
  function ExpectedNamesOf(name: string): seq<string> {
    if name == SendMessage || name == GetUsers then [name + "_0", name + "_1"] else [name]
  }

  /** The names each of `main`'s examples contributes when it completes, in `main`'s order. */
  const ExpectedTable: seq<seq<string>> := seq(|ExampleOrder|, k requires 0 <= k < |ExampleOrder| => ExpectedNamesOf(ExampleOrder[k]))

  /** When every call in `body` succeeds, its callback resolves: to one value, or to one value per call. */
  lemma PerformSucceeds<V>(body: Body, client: Request -> Option<V>)
    requires forall r :: client(r).Some?
    ensures Perform(body, client).Some?
    ensures body.ReturnsLast? ==> Perform(body, client).value.Single?
    ensures body.ReturnsAll? ==>
      Perform(body, client).value.Multi? && |Perform(body, client).value.values| == |body.calls|
  {
  }

  /** The client calls a callback awaits, in order. */
  function CallsOf(body: Body): seq<Request> {
    match body
    case ReturnsLast(before, last) => before + [last]
    case ReturnsAll(calls) => calls
  }

  /** A callback resolves exactly when every client call it awaits succeeds. */
  lemma PerformIff<V>(body: Body, client: Request -> Option<V>)
    ensures Perform(body, client).Some? <==> forall i | 0 <= i < |CallsOf(body)| :: client(CallsOf(body)[i]).Some?
  {
    match body
    case ReturnsAll(calls) =>
      assert Perform(body, client).Some? <==> AwaitAll(calls, client).Some?;
      assert CallsOf(body) == calls;
      assert AwaitAll(calls, client).Some? <==> forall i | 0 <= i < |calls| :: client(calls[i]).Some?;
    case ReturnsLast(before, last) =>
      var calls := CallsOf(body);
      var ok := forall i | 0 <= i < |calls| :: client(calls[i]).Some?;
      assert forall i | 0 <= i < |before| :: calls[i] == before[i];
      assert calls[|before|] == last;
      if ok {
        assert AwaitAll(before, client).Some?;
      } else {
        var i :| 0 <= i < |calls| && client(calls[i]).None?;
        if i < |before| {
          assert AwaitAll(before, client).None?;
        }
      }
  }

  /** How each example `main` runs is registered: under its own name, with a two-call array body exactly for two of them. */
  lemma RegisteredShape(k: nat)
    requires k < |ExampleOrder|
    ensures ExampleOrder[k] in Registry()
    ensures Registry()[ExampleOrder[k]].name == ExampleOrder[k]
    ensures Registry()[ExampleOrder[k]].func.ReturnsAll? <==> ExampleOrder[k] == SendMessage || ExampleOrder[k] == GetUsers
    ensures Registry()[ExampleOrder[k]].func.ReturnsAll? ==> |Registry()[ExampleOrder[k]].func.calls| == 2
  {
  }

  /**
   * The names an example's records carry: its bare name when the callback
   * returns the last response, and the name suffixed `_0` and `_1` when it
   * returns the array of two responses.
   */
  lemma BodyNames<V>(e: Example<Body>, client: Request -> Option<V>)
    requires e.func.ReturnsAll? ==> |e.func.calls| == 2
    ensures Perform(e.func, client).Some? ==>
      Names(Records(e, Perform(e.func, client).value)) ==
        if e.func.ReturnsAll? then [e.name + "_0", e.name + "_1"] else [e.name]
  {
    var result := Perform(e.func, client);
    if result.Some? {
      var records := Records(e, result.value);
      RecordsShape(e, result.value);
      if e.func.ReturnsAll? {
        var vs := AwaitAll(e.func.calls, client);
        assert result.value == Multi(vs.value);
        assert NatToDecimal(0) == "0" && NatToDecimal(1) == "1";
        assert records[0].name == RecordName(e.name, Some(0)) == e.name + "_0";
        assert records[1].name == RecordName(e.name, Some(1)) == e.name + "_1";
        assert Names(records) == [records[0].name, records[1].name];
      } else {
        assert result.value.Single?;
        assert records[0].name == RecordName(e.name, None) == e.name;
      }
    }
  }

  /** Each of the eleven examples, once it completes, contributes exactly the names `ExpectedNamesOf` gives. */
  lemma ExampleStep<V>(client: Request -> Option<V>, k: nat)
    requires k < |ExampleOrder|
    ensures (forall r :: client(r).Some?) ==> Step(Lookup(Registry(), ExampleOrder[k]), Invoke(client)).Some?
    ensures Step(Lookup(Registry(), ExampleOrder[k]), Invoke(client)).Some? ==>
      Names(Step(Lookup(Registry(), ExampleOrder[k]), Invoke(client)).value) == ExpectedNamesOf(ExampleOrder[k])
  {
    RegisteredShape(k);
    var e := Registry()[ExampleOrder[k]];
    BodyNames(e, client);
    if forall r :: client(r).Some? {
      PerformSucceeds(e.func, client);
    }
  }

  /** Spelled out, the expected names of all eleven examples are `ExpectedNames`, those of the first four its first five. */
  lemma ExpectedNamesSpelled()
    ensures FlatUpTo(ExpectedTable, |ExampleOrder|) == ExpectedNames
    ensures FlatUpTo(ExpectedTable, 4) == ExpectedNames[..5]
  {
    assert ExpectedTable[0] == ExpectedNames[0..2];
    assert FlatUpTo(ExpectedTable, 1) == ExpectedNames[..2];
    assert ExpectedTable[1] == ExpectedNames[2..3];
    assert FlatUpTo(ExpectedTable, 2) == ExpectedNames[..3];
    assert ExpectedTable[2] == ExpectedNames[3..4];
    assert FlatUpTo(ExpectedTable, 3) == ExpectedNames[..4];
    assert ExpectedTable[3] == ExpectedNames[4..5];
    assert FlatUpTo(ExpectedTable, 4) == ExpectedNames[..5];
    assert ExpectedTable[4] == ExpectedNames[5..6];
    assert FlatUpTo(ExpectedTable, 5) == ExpectedNames[..6];
    assert ExpectedTable[5] == ExpectedNames[6..7];
    assert FlatUpTo(ExpectedTable, 6) == ExpectedNames[..7];
    assert ExpectedTable[6] == ExpectedNames[7..8];
    assert FlatUpTo(ExpectedTable, 7) == ExpectedNames[..8];
    assert ExpectedTable[7] == ExpectedNames[8..9];
    assert FlatUpTo(ExpectedTable, 8) == ExpectedNames[..9];
    assert ExpectedTable[8] == ExpectedNames[9..10];
    assert FlatUpTo(ExpectedTable, 9) == ExpectedNames[..10];
    assert ExpectedTable[9] == ExpectedNames[10..12];
    assert FlatUpTo(ExpectedTable, 10) == ExpectedNames[..12];
    assert ExpectedTable[10] == ExpectedNames[12..13];
    assert FlatUpTo(ExpectedTable, 11) == ExpectedNames[..13];
  }

  /** Every example `main` runs contributes, whenever it completes, the names `ExpectedTable` lists for it. */
  lemma StepNames<V>(client: Request -> Option<V>)
    ensures forall k | 0 <= k < |ExampleOrder| :: Step(Lookup(Registry(), ExampleOrder[k]), Invoke(client)).Some? ==>
      Names(Step(Lookup(Registry(), ExampleOrder[k]), Invoke(client)).value) == ExpectedTable[k]
  {
    forall k | 0 <= k < |ExampleOrder|
      ensures Step(Lookup(Registry(), ExampleOrder[k]), Invoke(client)).Some? ==>
        Names(Step(Lookup(Registry(), ExampleOrder[k]), Invoke(client)).value) == ExpectedTable[k]
    {
      ExampleStep(client, k);
    }
  }

  /** An example of `main` completes exactly when every client call its callback awaits succeeds. */
  lemma ExampleCompletesIff<V>(client: Request -> Option<V>, k: nat)
    requires k < |ExampleOrder|
    ensures ExampleOrder[k] in Registry()
    ensures Step(Lookup(Registry(), ExampleOrder[k]), Invoke(client)).Some? <==>
      forall i | 0 <= i < |CallsOf(Registry()[ExampleOrder[k]].func)| :: client(CallsOf(Registry()[ExampleOrder[k]].func)[i]).Some?
  {
    RegisteredShape(k);
    PerformIff(Registry()[ExampleOrder[k]].func, client);
  }

  /**
   * One example of `main` that issues each client call. The queue registration
   * is issued by both `delete_queue` and `register_queue`; it is assigned to the latter.
   */
  function IssuedBy(r: Request): (k: nat)
    ensures k < |ExampleOrder|
  {
    match r
    case SendStreamMessage => 0
    case SendPrivateMessage => 0
    case CreateUserRequest => 1
    case RetrieveEmoji => 2
    case DeregisterQueue => 3
    case RetrieveMessages => 4
    case GetOwnProfile => 5
    case GetStreamIdRequest => 6
    case RetrieveTopics => 7
    case RetrieveSubscriptions => 8
    case RetrieveUsers => 9
    case RetrieveUsersWithGravatar => 9
    case RegisterMessageQueue => 10
  }

  /** A rejected client call makes the example `IssuedBy` assigns to it fail. */
  lemma IssuedByFails<V>(client: Request -> Option<V>, r: Request)
    requires client(r).None?
    ensures Step(Lookup(Registry(), ExampleOrder[IssuedBy(r)]), Invoke(client)).None?
  {
    var k := IssuedBy(r);
    RegisteredShape(k);
    var e := Registry()[ExampleOrder[k]];
    match e.func
    case ReturnsAll(calls) =>
      assert calls[0] == r || calls[1] == r;
    case ReturnsLast(before, last) =>
      assert last == r;
  }

  /** The run completes, and the array is printed, exactly when every client call the examples make succeeds. */
  lemma RunCompletesIff<V>(client: Request -> Option<V>)
    ensures Drive(Registry(), ExampleOrder, |ExampleOrder|, Invoke(client)).completed <==> forall r :: client(r).Some?
  {
    DriveCompletedIff(Registry(), ExampleOrder, |ExampleOrder|, Invoke(client));
    if forall r :: client(r).Some? {
      forall k | 0 <= k < |ExampleOrder|
        ensures Step(Lookup(Registry(), ExampleOrder[k]), Invoke(client)).Some?
      {
        ExampleStep(client, k);
      }
    } else {
      var r :| client(r).None?;
      IssuedByFails(client, r);
    }
  }

  /**
   * When every call succeeds the printed array holds thirteen records,
   * `send_message_0`, `send_message_1`, then one per example up to
   * `get_users_0`, `get_users_1` and `register_queue`.
   */
  lemma AllSucceed<V>(client: Request -> Option<V>)
    requires forall r :: client(r).Some?
    ensures Drive(Registry(), ExampleOrder, |ExampleOrder|, Invoke(client)).completed
    ensures Names(Drive(Registry(), ExampleOrder, |ExampleOrder|, Invoke(client)).records) == ExpectedNames
  {
    RunCompletesIff(client);
    StepNames(client);
    DriveNames(Registry(), ExampleOrder, |ExampleOrder|, Invoke(client), ExpectedTable);
    ExpectedNamesSpelled();
  }

  /** A few characters that already tell the thirteen expected names apart. */
  function NameKey(s: string): (int, char, char, char)
    requires |s| >= 6
  {
    (|s|, s[4], s[5], s[|s| - 1])
  }

  /** The thirteen names of `ExpectedNames` are pairwise different. */
  lemma ExpectedNamesDistinct()
    ensures forall i, j | 0 <= i < j < |ExpectedNames| :: ExpectedNames[i] != ExpectedNames[j]
  {
    var keys := [
      (14, '_', 'm', '0'), (14, '_', 'm', '1'), (11, 't', 'e', 'r'), (16, 'c', 'u', 'i'), (12, 't', 'e', 'e'),
      (12, 'm', 'e', 's'), (12, 'o', 'w', 'r'), (13, 's', 't', 'd'), (17, 's', 't', 's'), (17, 's', 'u', 's'),
      (11, 'u', 's', '0'), (11, 'u', 's', '1'), (14, 's', 't', 'e')];
    forall i | 0 <= i < |ExpectedNames|
      ensures |ExpectedNames[i]| >= 6 && NameKey(ExpectedNames[i]) == keys[i]
    {
    }
    forall i, j | 0 <= i < j < |ExpectedNames|
      ensures ExpectedNames[i] != ExpectedNames[j]
    {
      assert keys[i] != keys[j];
    }
  }

  /**
   * Whenever the array is printed, which by `RunCompletesIff` is exactly when
   * every client call succeeds, its records all have different names.
   */
  lemma PrintedNamesDistinct<V>(client: Request -> Option<V>)
    requires forall r :: client(r).Some?
    ensures Drive(Registry(), ExampleOrder, |ExampleOrder|, Invoke(client)).completed
    ensures var records := Drive(Registry(), ExampleOrder, |ExampleOrder|, Invoke(client)).records;
      forall i, j | 0 <= i < j < |records| :: records[i].name != records[j].name
  {
    var records := Drive(Registry(), ExampleOrder, |ExampleOrder|, Invoke(client)).records;
    RunCompletesIff(client);
    StepNames(client);
    DriveNames(Registry(), ExampleOrder, |ExampleOrder|, Invoke(client), ExpectedTable);
    ExpectedNamesSpelled();
    ExpectedNamesDistinct();
    assert Names(records) == ExpectedNames;
  }

  /** A rejected `get_messages` call aborts the run, which then holds only what the four examples before it gathered. */
  lemma GetMessagesStops<V>(client: Request -> Option<V>)
    requires client(RetrieveMessages).None?
    ensures !Drive(Registry(), ExampleOrder, |ExampleOrder|, Invoke(client)).completed
    ensures Drive(Registry(), ExampleOrder, |ExampleOrder|, Invoke(client)).records == Drive(Registry(), ExampleOrder, 4, Invoke(client)).records
  {
    var examples, invoke := Registry(), Invoke(client);
    IssuedByFails(client, RetrieveMessages);
    assert IssuedBy(RetrieveMessages) == 4;
    DriveStopsAtFailure(examples, ExampleOrder, |ExampleOrder|, invoke, 4);
  }

  /**
   * A rejected `get_messages` call aborts the run: nothing is printed, and
   * the names gathered are a prefix of those of the four examples before it;
   * when every other call succeeds they are exactly those five names.
   */
  lemma GetMessagesFails<V>(client: Request -> Option<V>)
    requires client(RetrieveMessages).None?
    ensures !Drive(Registry(), ExampleOrder, |ExampleOrder|, Invoke(client)).completed
    ensures Names(Drive(Registry(), ExampleOrder, |ExampleOrder|, Invoke(client)).records) <= ExpectedNames[..5]
    ensures (forall r | r != RetrieveMessages :: client(r).Some?) ==>
      Names(Drive(Registry(), ExampleOrder, |ExampleOrder|, Invoke(client)).records) == ExpectedNames[..5]
  {
    var invoke := Invoke(client);
    GetMessagesStops(client);
    StepNames(client);
    DriveNames(Registry(), ExampleOrder, 4, invoke, ExpectedTable);
    ExpectedNamesSpelled();
    if forall r | r != RetrieveMessages :: client(r).Some? {
      FirstFourComplete(client);
    }
  }

  /** When every call but `get_messages` succeeds, the four examples before it complete. */
  lemma FirstFourComplete<V>(client: Request -> Option<V>)
    requires forall r | r != RetrieveMessages :: client(r).Some?
    ensures Drive(Registry(), ExampleOrder, 4, Invoke(client)).completed
  {
    DriveCompletedIff(Registry(), ExampleOrder, 4, Invoke(client));
    forall k | 0 <= k < 4
      ensures Step(Lookup(Registry(), ExampleOrder[k]), Invoke(client)).Some?
    {
      ExampleCompletesIff(client, k);
      CallsAvoidGetMessages(k);
    }
  }

  /** None of the four examples before `get_messages` issues the `get_messages` call. */
  lemma CallsAvoidGetMessages(k: nat)
    requires k < 4
    ensures forall i | 0 <= i < |CallsOf(Registry()[ExampleOrder[k]].func)| :: CallsOf(Registry()[ExampleOrder[k]].func)[i] != RetrieveMessages
  {
    RegisteredShape(k);
  }

  /** `send_message` is registered with endpoint `/messages:post` and status code 200. */
  lemma SendMessageRegistered()
    ensures Registry()[SendMessage].endpoint == "/messages" + ":" + "post"
    ensures Registry()[SendMessage].statusCode == 200
  {
  }

  /** The records of `send_message` report endpoint `/messages`, method `post` and status code `200`. */
  lemma SendMessageRecordFields<V>(example: Example<Body>, result: V, count: Option<nat>)
    requires example == Registry()[SendMessage]
    ensures MakeResultObject(example, result, count).endpoint == "/messages"
    ensures MakeResultObject(example, result, count).httpMethod == Some("post")
    ensures MakeResultObject(example, result, count).statusCode == "200"
  {
    SendMessageRegistered();
    MessagesPostFields(example, result, count);
  }

  /** A record made from an example registered at `/messages:post` with status 200. */
  lemma MessagesPostFields<V>(example: Example<Body>, result: V, count: Option<nat>)
    requires example.endpoint == "/messages" + ":" + "post"
    requires example.statusCode == 200
    ensures MakeResultObject(example, result, count).endpoint == "/messages"
    ensures MakeResultObject(example, result, count).httpMethod == Some("post")
    ensures MakeResultObject(example, result, count).statusCode == "200"
  {
    EndpointFields(example, result, count, "/messages", "post");
  }
}
