/** The `cloudant out` node (cloudant-cf/nodes/modify.js): it creates its
    database at start-up, then inserts or deletes one document per
    incoming message. */
module Modify {
  import opened Text
  import opened Values
  import opened Db
  import opened Messages
  import Utils
  import Configuration

  /** How many times an insert is retried after its first attempt. */
  const MaxAttempts: nat := 3

  // ---------------------------------------------------------------
  // parseMessage
  // ---------------------------------------------------------------

  /** `parseMessage`: conversion to a document, then `cleanMessage`. */
  function ParseMessage(msg: Value, root: string, parse: JsonParser): (r: Result<Value>)
    ensures r.Ok? ==> ParseMessageRaw(msg, root, parse) == r
    ensures ParseMessageRaw(msg, root, parse).Throw? ==> r == ParseMessageRaw(msg, root, parse)
    ensures r.Throw? && ParseMessageRaw(msg, root, parse).Ok? ==> r.error == ReferenceError("node")
    ensures IsObject(msg) ==> r == Utils.CleanMessage(msg)
  {
    var doc :- ParseMessageRaw(msg, root, parse);
    Utils.CleanMessage(doc)
  }

  /** Any object, `null` and arrays included, reaches the cleaner as it
      is; a message with only valid keys comes out unchanged. */
  lemma ObjectsPassThrough(msg: Value, root: string, parse: JsonParser)
    requires IsObject(msg)
    requires msg.Obj? ==> Utils.AllFieldNamesValid(msg.props)
    ensures ParseMessage(msg, root, parse) == Ok(msg)
  {
  }

  /** A document with a key such as `_foo` is never stored: the rename
      reaches the undefined `node` and throws. */
  lemma InvalidKeyThrows(ps: Props, i: nat, root: string, parse: JsonParser)
    requires i < |ps| && !Utils.IsFieldNameValid(ps[i].0)
    ensures ParseMessage(Obj(ps), root, parse) == Throw(ReferenceError("node"))
  {
  }

  // ---------------------------------------------------------------
  // insertDocument
  // ---------------------------------------------------------------

  predicate IsNotFound(r: DbReply) {
    r.Failed? && IsError(r.err, "not_found")
  }

  /** A reply the insert loop answers with another attempt, while it has
      attempts left. */
  predicate IsRetried(r: DbReply) {
    r.Failed? && !IsNotFound(r)
  }

  /** How an insert run ends: the callback receives a reply, the
      `not_found` branch throws on the undefined `cloudant`, or the last
      request is still outstanding. */
  datatype InsertEnd = Delivered(reply: DbReply) | Crashed(error: JsError) | Pending

  /** `calls` counts the insert requests issued. */
  datatype InsertRun = InsertRun(calls: nat, end: InsertEnd)

  /** `insertDocument(doc, db, attempts, cb)` as a fold over the replies
      its successive inserts receive. */
  function InsertDocument(attempts: nat, replies: seq<DbReply>): (r: InsertRun)
    ensures 1 <= r.calls <= attempts + 1
    ensures r.end.Pending? <==> r.calls == |replies| + 1
    ensures !r.end.Pending? ==> r.calls <= |replies|
    ensures forall i :: 0 <= i < r.calls - 1 ==> IsRetried(replies[i])
    ensures r.end.Crashed? ==> r.calls <= attempts && r.calls <= |replies| && IsNotFound(replies[r.calls - 1])
                                && r.end.error == ReferenceError("cloudant")
    ensures r.end.Delivered? ==> r.calls <= |replies| && r.end.reply == replies[r.calls - 1]
                                  && (r.calls <= attempts ==> r.end.reply.Done?)
    decreases attempts
  {
    if |replies| == 0 then InsertRun(1, Pending)
    else if attempts > 0 && replies[0].Failed? then
      if IsNotFound(replies[0]) then InsertRun(1, Crashed(ReferenceError("cloudant")))
      else
        var rest := InsertDocument(attempts - 1, replies[1..]);
        InsertRun(rest.calls + 1, rest.end)
    else InsertRun(1, Delivered(replies[0]))
  }

  /** The first success is delivered at once, after the failures before
      it were retried. */
  lemma FirstSuccessDelivered(attempts: nat, replies: seq<DbReply>, k: nat)
    requires k <= attempts && k < |replies|
    requires forall i :: 0 <= i < k ==> IsRetried(replies[i])
    requires replies[k].Done?
    ensures InsertDocument(attempts, replies) == InsertRun(k + 1, Delivered(replies[k]))
  {
  }

  /** With three attempts left, four failures in a row make four inserts,
      and the fourth error reaches the callback. */
  lemma GivesUpAfterFourInserts(replies: seq<DbReply>)
    requires |replies| >= 4
    requires forall i :: 0 <= i < 4 ==> IsRetried(replies[i])
    ensures InsertDocument(MaxAttempts, replies) == InsertRun(4, Delivered(replies[3]))
  {
  }

  /** A `not_found` reply while attempts remain throws instead of
      creating the database. */
  lemma NotFoundThrows(attempts: nat, replies: seq<DbReply>, k: nat)
    requires k < attempts && k < |replies|
    requires forall i :: 0 <= i < k ==> IsRetried(replies[i])
    requires IsNotFound(replies[k])
    ensures InsertDocument(attempts, replies) == InsertRun(k + 1, Crashed(ReferenceError("cloudant")))
  {
  }

  // ---------------------------------------------------------------
  // createDatabase
  // ---------------------------------------------------------------

  /** `createDatabase` calls its callback unless the create failed with
      `file_exists` or `forbidden`. */
  predicate CreateCallsBack(reply: DbReply) {
    !(reply.Failed? && (IsError(reply.err, "file_exists") || IsError(reply.err, "forbidden")))
  }

  /** What the start-up callback logs for the create reply. */
  function CreateReport(reply: DbReply): (r: seq<Effect>)
    ensures |r| <= 1
    ensures |r| == 1 <==> reply.Failed? && CreateCallsBack(reply)
    ensures |r| == 1 ==> r[0] == LogError(Describe("Failed to create database: ", reply.err))
  {
    if CreateCallsBack(reply) && reply.Failed? then
      [LogError(Describe("Failed to create database: ", reply.err))]
    else []
  }

  // ---------------------------------------------------------------
  // deleteDocument
  // ---------------------------------------------------------------

  /** `deleteDocument(doc, db)` with no callback: the guard builds an error
      nobody receives, and the destroy request goes out regardless. The
      `in` test throws when the document is not an object. */
  function DeleteDocument(doc: Value): (r: Result<DbCall>)
    ensures r.Throw? <==> doc.Null? || !IsObject(doc)
    ensures doc.Obj? ==> r == Ok(Destroy(Field(doc.props, "_id"), Field(doc.props, "_rev")))
  {
    match In("_rev", doc)
    case Throw(e) => Throw(e)
    case Ok(_) => Ok(Destroy(Get(doc, "_id").value, Get(doc, "_rev").value))
  }

  // ---------------------------------------------------------------
  // The node
  // ---------------------------------------------------------------

  /** The editor settings of a `cloudant out` node. */
  datatype ModifyConfig = ModifyConfig(
    operation: Value,
    payonly: Value,
    database: string,
    service: string,
    cloudant: Value)

  /** The node after its constructor ran. */
  datatype ModifyNode = ModifyNode(operation: Value, payonly: Value, database: string)

  function NewModifyNode(config: ModifyConfig): (n: ModifyNode)
    ensures n.operation == config.operation
    ensures Truthy(n.payonly) <==> Truthy(config.payonly)
    ensures n.database == Utils.CleanDatabaseName(config.database).name
  {
    ModifyNode(config.operation, Or(config.payonly, Bool(false)),
               Utils.CleanDatabaseName(config.database).name)
  }

  function OptionEffects(w: Option<string>): seq<Effect> {
    match w
    case Some(text) => [LogWarn(text)]
    case None => []
  }

  /** The constructor's observable work: the rename warning, the
      configuration lookup, the connection (whose error, if any, is
      `connectError`), and the create request with its reply. */
  function Startup(config: ModifyConfig,
                   getNode: Value -> Option<Configuration.ConfigNode>,
                   getService: string -> Value,
                   connectError: Option<DbError>,
                   createReply: Option<DbReply>): (out: Outcome)
    ensures var renamed := Utils.CleanDatabaseName(config.database);
            |out.effects| >= 1 && renamed.warning.Some? ==> out.effects[0] == LogWarn(renamed.warning.value)
    ensures out.calls != [] ==> connectError.None? && out.calls == [CreateDb(Str(NewModifyNode(config).database))]
    ensures connectError.None? && createReply.Some? && out.calls != []
            ==> out.effects == OptionEffects(Utils.CleanDatabaseName(config.database).warning) + CreateReport(createReply.value)
    ensures var c := Utils.GetCloudantConfig(config.service, config.cloudant, getNode, getService);
            c.Ok? && Utils.ClientCredentials(c.value).Ok? && connectError.None?
            ==> out.calls == [CreateDb(Str(NewModifyNode(config).database))]
    ensures var c := Utils.GetCloudantConfig(config.service, config.cloudant, getNode, getService);
            var warned := OptionEffects(Utils.CleanDatabaseName(config.database).warning);
            c.Throw? ==> out == Outcome([], warned + [Crash(c.error)])
    ensures var c := Utils.GetCloudantConfig(config.service, config.cloudant, getNode, getService);
            var warned := OptionEffects(Utils.CleanDatabaseName(config.database).warning);
            c.Ok? && Utils.ClientCredentials(c.value).Throw?
            ==> out == Outcome([], warned + [Crash(Utils.ClientCredentials(c.value).error)])
    ensures var c := Utils.GetCloudantConfig(config.service, config.cloudant, getNode, getService);
            var warned := OptionEffects(Utils.CleanDatabaseName(config.database).warning);
            c.Ok? && Utils.ClientCredentials(c.value).Ok? && connectError.Some?
            ==> out == Outcome([], warned + [LogError(ToJsString(connectError.value.description))])
  {
    var renamed := Utils.CleanDatabaseName(config.database);
    var warned := OptionEffects(renamed.warning);
    match Utils.GetCloudantConfig(config.service, config.cloudant, getNode, getService)
    case Throw(e) => Outcome([], warned + [Crash(e)])
    case Ok(cfg) =>
      match Utils.ClientCredentials(cfg)
      case Throw(e) => Outcome([], warned + [Crash(e)])
      case Ok(_) =>
        match connectError
        case Some(e) => Outcome([], warned + [LogError(ToJsString(e.description))])
        case None =>
          Outcome([CreateDb(Str(renamed.name))],
                  warned + (if createReply.Some? then CreateReport(createReply.value) else []))
  }

  /** An existing database, or an API key that may not create one, is
      not an error worth logging; any other create failure is. */
  lemma CreateFailureLoggedUnlessExpected(e: DbError)
    ensures CreateReport(Failed(e)) == [] <==> IsError(e, "file_exists") || IsError(e, "forbidden")
  {
  }

  /** What the insert branch does once the callback has its reply. */
  function InsertEffects(target: Value, run: InsertRun): (effects: seq<Effect>)
    ensures |effects| == if run.end.Pending? then 0 else 1
    ensures run.end.Delivered? && run.end.reply.Failed? ==>
              effects == [LogError(Describe("Failed to insert document: ", run.end.reply.err))]
    ensures run.end.Delivered? && run.end.reply.Done? && target.Obj? ==>
              effects == [Send(Obj(Put(target.props, "payload", run.end.reply.body)))]
    ensures (exists i :: 0 <= i < |effects| && effects[i].Send?) ==> run.end.Delivered? && run.end.reply.Done?
  {
    match run.end
    case Pending => []
    case Crashed(e) => [Crash(e)]
    case Delivered(Failed(e)) => [LogError(Describe("Failed to insert document: ", e))]
    case Delivered(Done(body)) =>
      match Assign(target, "payload", body)
      case Throw(e) => [Crash(e)]
      case Ok(m) => [Send(m)]
  }

  /** The input handler: `_msgid` is deleted, then the operation decides.
      `replies` are the replies to the successive insert requests. */
  function OnInput(node: ModifyNode, msg: Value, parse: JsonParser, replies: seq<DbReply>): (out: Outcome)
    requires msg.Obj?
    ensures node.operation != Str("insert") && node.operation != Str("delete") ==> out == Outcome([], [])
    ensures node.operation == Str("delete") ==> |out.calls| <= 1 && |out.effects| <= 1
                                                && (|out.calls| == 1 <==> out.effects == [])
    ensures node.operation == Str("insert") ==>
              |out.calls| <= MaxAttempts + 1
              && (forall i :: 0 <= i < |out.calls| ==> out.calls[i].Insert?)
              && |out.effects| <= 1
  {
    var m := Obj(Remove(msg.props, "_msgid"));
    if node.operation == Str("insert") then
      var target := if Truthy(node.payonly) then Field(m.props, "payload") else m;
      var root := if Truthy(node.payonly) then "payload" else "msg";
      match ParseMessage(target, root, parse)
      case Throw(e) => Outcome([], [Crash(e)])
      case Ok(doc) =>
        var run := InsertDocument(MaxAttempts, replies);
        Outcome(seq(run.calls, _ => Insert(doc)), InsertEffects(target, run))
    else if node.operation == Str("delete") then
      var target := Or(Field(m.props, "payload"), m);
      match ParseMessage(target, "", parse)
      case Throw(e) => Outcome([], [Crash(e)])
      case Ok(doc) =>
        match DeleteDocument(doc)
        case Throw(e) => Outcome([], [Crash(e)])
        case Ok(call) => Outcome([call], [])
    else Outcome([], [])
  }

  /** A successful insert sends the message, without `_msgid`, with the
      receipt as its payload. */
  lemma InsertSuccessSendsReceipt(node: ModifyNode, ps: Props, parse: JsonParser, body: Value)
    requires node.operation == Str("insert") && !Truthy(node.payonly)
    requires Utils.AllFieldNamesValid(Remove(ps, "_msgid"))
    ensures var out := OnInput(node, Obj(ps), parse, [Done(body)]);
            var sent := Obj(Put(Remove(ps, "_msgid"), "payload", body));
            && out == Outcome([Insert(Obj(Remove(ps, "_msgid")))], [Send(sent)])
            && Lookup(sent.props, "_msgid") == None
  {
    var run := InsertDocument(MaxAttempts, [Done(body)]);
    assert run == InsertRun(1, Delivered(Done(body)));
    assert seq(1, _ => Insert(Obj(Remove(ps, "_msgid")))) == [Insert(Obj(Remove(ps, "_msgid")))];
  }

  /** A failed insert is logged and nothing is sent. */
  lemma InsertFailureSendsNothing(node: ModifyNode, ps: Props, parse: JsonParser, replies: seq<DbReply>)
    requires node.operation == Str("insert")
    requires InsertDocument(MaxAttempts, replies).end.Delivered?
    requires InsertDocument(MaxAttempts, replies).end.reply.Failed?
    ensures forall e :: e in OnInput(node, Obj(ps), parse, replies).effects ==> !e.Send?
  {
  }

  /** The delete guard does not stop the request: a document without a
      revision is still destroyed, with `undefined` as its revision, and
      no error is reported. */
  lemma DeleteWithoutRevisionStillDestroys(node: ModifyNode, id: Value, parse: JsonParser)
    requires node.operation == Str("delete")
    ensures var doc := [("_id", id)];
            var out := OnInput(node, Obj([("payload", Obj(doc))]), parse, []);
            out == Outcome([Destroy(id, Undefined)], [])
  {
    var doc: Props := [("_id", id)];
    var msg: Props := [("payload", Obj(doc))];
    assert Keys(msg) == ["payload"];
    assert Keys(doc) == ["_id"];
    assert Remove(msg, "_msgid") == msg;
    assert Utils.IsFieldNameValid("_id") by {
      assert Utils.AllowedWords[0] == "_id";
    }
  }

  /** With `payonly`, a text payload that is not JSON is stored under the
      key `payload`, on every insert attempt. */
  lemma PayonlyTextWrappedUnderPayload(node: ModifyNode, ps: Props, text: string, parse: JsonParser,
                                       replies: seq<DbReply>)
    requires node.operation == Str("insert") && Truthy(node.payonly)
    requires Field(ps, "payload") == Str(text)
    requires IsPlain(text) && parse(text).None?
    ensures var out := OnInput(node, Obj(ps), parse, replies);
            |out.calls| >= 1
            && forall i :: 0 <= i < |out.calls| ==> out.calls[i] == Insert(Obj([("payload", Str(text))]))
  {
    var m := Remove(ps, "_msgid");
    assert Field(m, "payload") == Str(text);
    assert IsPlain("payload");
    assert Utils.AllFieldNamesValid([("payload", Str(text))]);
  }

  /** A text payload on the delete path is wrapped under the empty key,
      so the destroy request carries neither an id nor a revision. */
  lemma TextPayloadDeletesUndefined(node: ModifyNode, ps: Props, text: string, parse: JsonParser)
    requires node.operation == Str("delete")
    requires Field(ps, "payload") == Str(text) && text != ""
    requires IsPlain(text) && parse(text).None?
    ensures OnInput(node, Obj(ps), parse, []) == Outcome([Destroy(Undefined, Undefined)], [])
  {
    var m := Remove(ps, "_msgid");
    assert Field(m, "payload") == Str(text);
    assert IsPlain("");
    var doc: Props := [("", Str(text))];
    assert Utils.AllFieldNamesValid(doc);
    assert Keys(doc) == [""];
  }
}
