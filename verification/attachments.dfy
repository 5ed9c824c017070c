/** The `cloudant attachment in` node (cloudant-cf/nodes/attachments.js):
    per message it fetches a document, then either one named attachment
    or every attachment the document lists, and sends the result on the
    message. The fetches of all attachments complete in any order; their
    completions are a sequence of events, and the join that waits for all
    of them is a fold over that sequence. */
module Attachments {
  import opened Values
  import opened Db
  import Utils
  import Configuration

  // ---------------------------------------------------------------
  // encodeAttachment
  // ---------------------------------------------------------------

  /** `Buffer.prototype.toString(encoding)`: the decoded text, or None for
      an encoding Node.js does not know. A parameter of the model. */
  type Decoder = (seq<bv8>, Value) -> Option<string>

  /** `encodeAttachment(data, encoding)`: the data itself when the
      encoding is the string `'none'`, else `data.toString(encoding)`.
      Strings, booleans, arrays and plain objects ignore the argument and
      print their own text, and reading `toString` of `null` or
      `undefined` throws. A number would take the encoding as its radix,
      which is not modelled. */
  function Encode(data: Value, encoding: Value, decode: Decoder): (r: Result<Value>)
    ensures encoding == Str("none") ==> r == Ok(data)
    ensures encoding != Str("none") && data.Bytes? ==>
              (r.Ok? <==> decode(data.data, encoding).Some?)
              && (r.Ok? ==> r.value == Str(decode(data.data, encoding).value))
    ensures encoding != Str("none") && (data.Null? || data.Undefined?) ==> r.Throw? && r.error.TypeError?
    ensures encoding != Str("none") && r.Ok? ==> r.value.Str?
    ensures encoding != Str("none") && !data.Bytes? && !data.Num? && !data.Null? && !data.Undefined?
            ==> r == Ok(Str(ToJsString(data)))
  {
    if encoding == Str("none") then Ok(data)
    else
      match data
      case Bytes(d) =>
        (match decode(d, encoding)
         case Some(text) => Ok(Str(text))
         case None => Throw(TypeError("Unknown encoding: " + ToJsString(encoding))))
      case Str(_) => Ok(data)
      case Bool(_) => Ok(Str(ToJsString(data)))
      case Undefined => Throw(TypeError("Cannot read properties of undefined (reading 'toString')"))
      case Null => Throw(TypeError("Cannot read properties of null (reading 'toString')"))
      case Num(_) => Throw(Unmodelled("Number.prototype.toString with an encoding as its radix"))
      case Arr(_) => Ok(Str(ToJsString(data)))
      case Obj(_) => Ok(Str(ToJsString(data)))
  }

  /** Encoding what was already encoded changes nothing: the result of any
      encoding but `'none'` is a string, and a string prints itself. */
  lemma EncodeTwice(data: Value, encoding: Value, decode: Decoder)
    requires Encode(data, encoding, decode).Ok?
    ensures Encode(Encode(data, encoding, decode).value, encoding, decode) == Encode(data, encoding, decode)
  {
  }

  // ---------------------------------------------------------------
  // Callbacks
  // ---------------------------------------------------------------

  /** What a fetch helper hands to its callback: `(null, resp)` or
      `(err)`. */
  datatype Callback<T> = Success(resp: T) | Failure(err: DbError)

  function SuccessCount<T>(cbs: seq<Callback<T>>): (n: nat)
    ensures n <= |cbs|
  {
    if |cbs| == 0 then 0 else (if cbs[0].Success? then 1 else 0) + SuccessCount(cbs[1..])
  }

  function FailureCount<T>(cbs: seq<Callback<T>>): (n: nat)
    ensures n <= |cbs|
  {
    if |cbs| == 0 then 0 else (if cbs[0].Failure? then 1 else 0) + FailureCount(cbs[1..])
  }

  lemma {:induction false} CallbackCountsAppend<T>(a: seq<Callback<T>>, b: seq<Callback<T>>)
    ensures SuccessCount(a + b) == SuccessCount(a) + SuccessCount(b)
    ensures FailureCount(a + b) == FailureCount(a) + FailureCount(b)
  {
    if |a| == 0 {
      assert a + b == b;
    } else {
      assert (a + b)[1..] == a[1..] + b;
      CallbackCountsAppend(a[1..], b);
    }
  }

  /** Every callback is one or the other. */
  lemma {:induction false} CallbackCountsSum<T>(cbs: seq<Callback<T>>)
    ensures SuccessCount(cbs) + FailureCount(cbs) == |cbs|
  {
    if |cbs| > 0 {
      CallbackCountsSum(cbs[1..]);
    }
  }

  // ---------------------------------------------------------------
  // getAttachment
  // ---------------------------------------------------------------

  /** `{attachment: <manifest entry>, body: <fetched body>}`. */
  datatype Fetched = Fetched(attachment: Value, body: Value)

  /** The request `getAttachment` issues and, once its reply is in, the
      callback it makes. */
  datatype SingleRun = SingleRun(call: DbCall, callback: Option<Callback<Fetched>>)

  function ReplyCallback(entry: Value, reply: Option<DbReply>): Option<Callback<Fetched>> {
    match reply
    case None => None
    case Some(Failed(e)) => Some(Failure(e))
    case Some(Done(body)) => Some(Success(Fetched(entry, body)))
  }

  /** `getAttachment(db, doc, name, callback)`: the manifest entry is read
      before the request, so a document without `_attachments` throws and
      nothing is requested. The entry in the response is the one the
      document lists, not anything the fetch returns. */
  function GetAttachment(doc: Value, name: Value, reply: Option<DbReply>): (r: Result<SingleRun>)
    ensures r.Throw? <==> doc.Null? || doc.Undefined?
                          || Get(doc, "_attachments").value.Null? || Get(doc, "_attachments").value.Undefined?
    ensures doc.Obj? && Field(doc.props, "_attachments").Obj? ==>
              var entry := Field(Field(doc.props, "_attachments").props, ToJsString(name));
              && r == Ok(SingleRun(FetchAttachment(Field(doc.props, "_id"), name), ReplyCallback(entry, reply)))
              && (forall body :: reply == Some(Done(body)) ==>
                    r.value.callback == Some(Success(Fetched(entry, body))))
  {
    match Get(doc, "_attachments")
    case Throw(e) => Throw(e)
    case Ok(manifest) =>
      match Get(manifest, ToJsString(name))
      case Throw(e) => Throw(e)
      case Ok(entry) =>
        Ok(SingleRun(FetchAttachment(Get(doc, "_id").value, name), ReplyCallback(entry, reply)))
  }

  // ---------------------------------------------------------------
  // getAllAttachments
  // ---------------------------------------------------------------

  /** The completion of the fetch of the `index`-th listed attachment. */
  datatype Event = Event(index: nat, reply: DbReply)

  /** The join's state: the manifest object as mutated so far, the
      counter, the callbacks made, and the exception that escaped a
      completion, if one did. */
  datatype JoinState = JoinState(atts: Props, counter: nat, callbacks: seq<Callback<Props>>,
                                 crash: Option<JsError>)

  /** `Object.keys(attachments)`: a non-object manifest has no keys to
      fetch, `undefined` and `null` throw. Strings, arrays and buffers
      list their indices, which is not modelled. */
  function ManifestProps(manifest: Value): (r: Result<Props>)
    ensures manifest.Obj? ==> r == Ok(manifest.props)
    ensures manifest.Num? || manifest.Bool? ==> r == Ok([])
    ensures manifest.Null? || manifest.Undefined? ==> r.Throw? && r.error.TypeError?
  {
    match manifest
    case Obj(ps) => Ok(ps)
    case Num(_) => Ok([])
    case Bool(_) => Ok([])
    case Undefined => Throw(TypeError("Cannot convert undefined or null to object"))
    case Null => Throw(TypeError("Cannot convert undefined or null to object"))
    case Str(_) => Throw(Unmodelled("Object.keys of a string"))
    case Arr(_) => Throw(Unmodelled("Object.keys of an array"))
    case Bytes(_) => Throw(Unmodelled("Object.keys of a Buffer"))
  }

  /** One completion. A failure calls back with the error at once; a
      success stores the body as the entry's `data`, counts, and calls
      back with the whole manifest when the count reaches the number of
      keys. Events for an index no request was made for are ignored. */
  function Step(s: JoinState, keys: seq<string>, ev: Event): JoinState
    requires s.crash.None?
  {
    if ev.index >= |keys| then s
    else
      match ev.reply
      case Failed(e) => s.(callbacks := s.callbacks + [Failure(e)])
      case Done(body) =>
        var name := keys[ev.index];
        match Assign(Field(s.atts, name), "data", body)
        case Throw(e) => s.(crash := Some(e))
        case Ok(entry) =>
          var atts := Put(s.atts, name, entry);
          var counter := s.counter + 1;
          s.(atts := atts, counter := counter,
             callbacks := s.callbacks + (if counter == |Keys(atts)| then [Success(atts)] else []))
  }

  /** The completions in the order they arrive; an escaped exception ends
      the process, and with it the run. */
  function Join(s: JoinState, keys: seq<string>, events: seq<Event>): JoinState
    decreases |events|
  {
    if |events| == 0 || s.crash.Some? then s
    else Join(Step(s, keys, events[0]), keys, events[1..])
  }

  /** The run of `getAllAttachments`: the requests, one per key in key
      order, and the state the completions leave. */
  datatype AllRun = AllRun(calls: seq<DbCall>, end: JoinState)

  function FetchCalls(docId: Value, keys: seq<string>): (calls: seq<DbCall>)
    ensures |calls| == |keys|
    ensures forall i :: 0 <= i < |keys| ==> calls[i] == FetchAttachment(docId, Str(keys[i]))
  {
    seq(|keys|, i requires 0 <= i < |keys| => FetchAttachment(docId, Str(keys[i])))
  }

  function Start(ps: Props): JoinState {
    JoinState(ps, 0, [], None)
  }

  function GetAllAttachments(doc: Value, events: seq<Event>): (r: Result<AllRun>)
    ensures doc.Obj? && Field(doc.props, "_attachments").Obj? ==>
              var ps := Field(doc.props, "_attachments").props;
              r == Ok(AllRun(FetchCalls(Field(doc.props, "_id"), Keys(ps)), Join(Start(ps), Keys(ps), events)))
    ensures doc.Null? || doc.Undefined? ==> r.Throw?
  {
    match Get(doc, "_attachments")
    case Throw(e) => Throw(e)
    case Ok(manifest) =>
      match ManifestProps(manifest)
      case Throw(e) => Throw(e)
      case Ok(ps) =>
        Ok(AllRun(FetchCalls(Get(doc, "_id").value, Keys(ps)), Join(Start(ps), Keys(ps), events)))
  }

  // ---------------------------------------------------------------
  // The join's properties
  // ---------------------------------------------------------------

  /** Completions of requests that were made, succeeded. */
  function DoneCount(events: seq<Event>, n: nat): (c: nat)
    ensures c <= |events|
  {
    if |events| == 0 then 0
    else (if events[0].index < n && events[0].reply.Done? then 1 else 0) + DoneCount(events[1..], n)
  }

  /** Completions of requests that were made, failed. */
  function FailedCount(events: seq<Event>, n: nat): (c: nat)
    ensures c <= |events|
  {
    if |events| == 0 then 0
    else (if events[0].index < n && events[0].reply.Failed? then 1 else 0) + FailedCount(events[1..], n)
  }

  /** Every event answers one of the `n` requests. */
  predicate Answering(events: seq<Event>, n: nat) {
    forall j :: 0 <= j < |events| ==> events[j].index < n
  }

  /** Every listed entry is an object, as the stubs of a document's
      `_attachments` are; storing `data` on them cannot throw. */
  predicate EntriesAreObjects(atts: Props, keys: seq<string>) {
    forall i :: 0 <= i < |keys| ==> Field(atts, keys[i]).Obj?
  }

  predicate Distinct(keys: seq<string>) {
    forall i, j :: 0 <= i < j < |keys| ==> keys[i] != keys[j]
  }

  lemma UniqueKeysDistinct(ps: Props)
    requires UniqueKeys(ps)
    ensures Distinct(Keys(ps))
  {
  }

  /** The state the join keeps while no completion has thrown. */
  predicate Healthy(s: JoinState, keys: seq<string>) {
    s.crash.None? && Keys(s.atts) == keys && EntriesAreObjects(s.atts, keys)
  }

  /** The completed entry: the stub with the fetched body as its `data`. */
  function Filled(entry: Value, body: Value): Value
    requires entry.Obj?
  {
    Obj(Put(entry.props, "data", body))
  }

  /** One successful completion of a listed request on a healthy state:
      only that entry changes, and it gets its body. */
  lemma StepDone(s: JoinState, keys: seq<string>, ev: Event)
    requires Healthy(s, keys) && ev.index < |keys| && ev.reply.Done?
    ensures var t := Step(s, keys, ev);
            && Healthy(t, keys)
            && t.counter == s.counter + 1
            && t.callbacks == s.callbacks + (if t.counter == |keys| then [Success(t.atts)] else [])
            && Field(t.atts, keys[ev.index]) == Filled(Field(s.atts, keys[ev.index]), ev.reply.body)
            && (forall k :: k != keys[ev.index] ==> Field(t.atts, k) == Field(s.atts, k))
  {
    var name := keys[ev.index];
    assert HasKey(s.atts, name);
    var entry := Filled(Field(s.atts, name), ev.reply.body);
    PutKeys(s.atts, name, entry);
  }

  lemma StepHealthy(s: JoinState, keys: seq<string>, ev: Event)
    requires Healthy(s, keys)
    ensures Healthy(Step(s, keys, ev), keys)
  {
    if ev.index < |keys| && ev.reply.Done? {
      StepDone(s, keys, ev);
    }
  }

  /** With every entry an object, no completion throws, the counter counts
      the successes, every failure calls back once, and the success call
      back happens once exactly when the counter passes the number of
      keys. */
  lemma {:induction false} JoinCounts(s: JoinState, keys: seq<string>, events: seq<Event>)
    requires Healthy(s, keys)
    ensures var t := Join(s, keys, events);
            && Healthy(t, keys)
            && t.counter == s.counter + DoneCount(events, |keys|)
            && FailureCount(t.callbacks) == FailureCount(s.callbacks) + FailedCount(events, |keys|)
            && SuccessCount(t.callbacks) == SuccessCount(s.callbacks)
                 + (if s.counter < |keys| <= t.counter then 1 else 0)
    decreases |events|
  {
    if |events| > 0 {
      var ev := events[0];
      var s' := Step(s, keys, ev);
      if ev.index < |keys| && ev.reply.Done? {
        StepDone(s, keys, ev);
        CallbackCountsAppend(s.callbacks, if s'.counter == |keys| then [Success(s'.atts)] else []);
      } else if ev.index < |keys| {
        CallbackCountsAppend(s.callbacks, [Failure(ev.reply.err)]);
      }
      JoinCounts(s', keys, events[1..]);
    }
  }

  /** When every remaining completion is a success and there are exactly
      enough of them, the success callback is the last thing that happens
      and carries the final manifest. */
  lemma {:induction false} AllDoneEndsInSuccess(s: JoinState, keys: seq<string>, events: seq<Event>)
    requires Healthy(s, keys) && |events| > 0 && Answering(events, |keys|)
    requires forall j :: 0 <= j < |events| ==> events[j].reply.Done?
    requires s.counter + |events| == |keys|
    ensures var t := Join(s, keys, events);
            t.crash.None? && t.callbacks == s.callbacks + [Success(t.atts)]
    decreases |events|
  {
    StepDone(s, keys, events[0]);
    var s' := Step(s, keys, events[0]);
    if |events| > 1 {
      AllDoneEndsInSuccess(s', keys, events[1..]);
      var t := Join(s', keys, events[1..]);
      assert s.callbacks + [Success(t.atts)] == s'.callbacks + [Success(t.atts)];
    }
  }

  /** The body of the last successful completion of request `i`: the
      one whose `data` stays. */
  function BodyFor(events: seq<Event>, i: nat): Option<Value> {
    if |events| == 0 then None
    else
      var later := BodyFor(events[1..], i);
      if later.Some? then later
      else if events[0].index == i && events[0].reply.Done? then Some(events[0].reply.body)
      else None
  }

  function FillWith(entry: Value, body: Option<Value>): Value
    requires entry.Obj?
  {
    match body
    case None => entry
    case Some(b) => Filled(entry, b)
  }

  /** Each listed entry ends up with the body its request fetched as its
      `data`, and with nothing else changed; an entry whose request has not
      succeeded is left as it was. */
  lemma {:induction false} JoinFillsEntry(s: JoinState, keys: seq<string>, events: seq<Event>, i: nat)
    requires Healthy(s, keys) && Distinct(keys) && i < |keys|
    ensures Field(Join(s, keys, events).atts, keys[i]) == FillWith(Field(s.atts, keys[i]), BodyFor(events, i))
    decreases |events|
  {
    if |events| > 0 {
      var ev := events[0];
      var s' := Step(s, keys, ev);
      if ev.index < |keys| && ev.reply.Done? {
        StepDone(s, keys, ev);
        if ev.index == i {
          var later := BodyFor(events[1..], i);
          if later.Some? {
            PutPut(Field(s.atts, keys[i]).props, "data", ev.reply.body, later.value);
          }
        }
      }
      StepHealthy(s, keys, ev);
      JoinFillsEntry(s', keys, events[1..], i);
    }
  }

  lemma {:induction false} EventCounts(events: seq<Event>, n: nat)
    requires Answering(events, n)
    ensures DoneCount(events, n) + FailedCount(events, n) == |events|
    ensures DoneCount(events, n) == |events| <==> forall j :: 0 <= j < |events| ==> events[j].reply.Done?
  {
    if |events| > 0 {
      assert forall j :: 1 <= j < |events| ==> events[1..][j - 1] == events[j];
      EventCounts(events[1..], n);
    }
  }

  /** Once every one of the N requests has completed, in whatever order,
      the join has called back with success exactly once if all N fetches
      succeeded and not at all otherwise, and with failure once per failed
      fetch. With nothing listed, nothing ever calls back. */
  lemma {:induction false} JoinSucceedsOnceIffAllSucceed(ps: Props, events: seq<Event>)
    requires EntriesAreObjects(ps, Keys(ps))
    requires Answering(events, |Keys(ps)|) && |events| == |Keys(ps)|
    ensures var t := Join(Start(ps), Keys(ps), events);
            && t.crash.None?
            && SuccessCount(t.callbacks) <= 1
            && (SuccessCount(t.callbacks) == 1
                <==> |events| > 0 && forall j :: 0 <= j < |events| ==> events[j].reply.Done?)
            && FailureCount(t.callbacks) == FailedCount(events, |events|)
            && |t.callbacks| == SuccessCount(t.callbacks) + FailureCount(t.callbacks)
  {
    JoinCounts(Start(ps), Keys(ps), events);
    EventCounts(events, |Keys(ps)|);
    CallbackCountsSum(Join(Start(ps), Keys(ps), events).callbacks);
  }

  /** When every fetch succeeds, the success callback is the only one and
      comes with the completion of the last fetch. */
  lemma {:induction false} AllSucceedCallsBackOnce(ps: Props, events: seq<Event>)
    requires EntriesAreObjects(ps, Keys(ps))
    requires Answering(events, |Keys(ps)|) && |events| == |Keys(ps)| > 0
    requires forall j :: 0 <= j < |events| ==> events[j].reply.Done?
    ensures var t := Join(Start(ps), Keys(ps), events);
            t.crash.None? && t.callbacks == [Success(t.atts)] && Keys(t.atts) == Keys(ps)
  {
    AllDoneEndsInSuccess(Start(ps), Keys(ps), events);
    JoinCounts(Start(ps), Keys(ps), events);
  }

  lemma {:induction false} NoSuccessMeansFailures<T>(cbs: seq<Callback<T>>)
    requires SuccessCount(cbs) == 0
    ensures forall j :: 0 <= j < |cbs| ==> cbs[j].Failure?
  {
    if |cbs| > 0 {
      NoSuccessMeansFailures(cbs[1..]);
      assert forall j :: 1 <= j < |cbs| ==> cbs[1..][j - 1] == cbs[j];
    }
  }

  // ---------------------------------------------------------------
  // Encoding every entry
  // ---------------------------------------------------------------

  /** `Object.keys(attachments).map(...)`: each entry's `data` is replaced
      by its encoding, key by key; reading `data` off a `null` entry, or an
      encoding that throws, stops the loop. */
  function EncodeEntries(atts: Props, keys: seq<string>, encoding: Value, decode: Decoder): Result<Props>
    decreases |keys|
  {
    if |keys| == 0 then Ok(atts)
    else
      var entry := Field(atts, keys[0]);
      match Get(entry, "data")
      case Throw(e) => Throw(e)
      case Ok(data) =>
        match Encode(data, encoding, decode)
        case Throw(e) => Throw(e)
        case Ok(text) =>
          match Assign(entry, "data", text)
          case Throw(e) => Throw(e)
          case Ok(encoded) => EncodeEntries(Put(atts, keys[0], encoded), keys[1..], encoding, decode)
  }

  /** The entry with its `data` encoded. */
  function EncodedEntry(entry: Value, encoding: Value, decode: Decoder): Value
    requires entry.Obj?
    requires Encode(Field(entry.props, "data"), encoding, decode).Ok?
  {
    Obj(Put(entry.props, "data", Encode(Field(entry.props, "data"), encoding, decode).value))
  }

  predicate EncodesCleanly(atts: Props, keys: seq<string>, encoding: Value, decode: Decoder) {
    forall i :: 0 <= i < |keys| ==>
      Field(atts, keys[i]).Obj? && Encode(Field(Field(atts, keys[i]).props, "data"), encoding, decode).Ok?
  }

  /** One round of the loop on an entry that encodes cleanly. */
  lemma EncodeEntriesStep(atts: Props, keys: seq<string>, encoding: Value, decode: Decoder)
    requires |keys| > 0 && Distinct(keys) && EncodesCleanly(atts, keys, encoding, decode)
    ensures var next := Put(atts, keys[0], EncodedEntry(Field(atts, keys[0]), encoding, decode));
            && EncodeEntries(atts, keys, encoding, decode) == EncodeEntries(next, keys[1..], encoding, decode)
            && Distinct(keys[1..]) && EncodesCleanly(next, keys[1..], encoding, decode)
  {
    EncodeEntriesUnfold(atts, keys, encoding, decode);
    var next := Put(atts, keys[0], EncodedEntry(Field(atts, keys[0]), encoding, decode));
    forall i | 0 <= i < |keys[1..]|
      ensures keys[1..][i] != keys[0] && Field(next, keys[1..][i]) == Field(atts, keys[1..][i])
    {
      assert keys[1..][i] == keys[i + 1];
    }
  }

  lemma EncodeEntriesUnfold(atts: Props, keys: seq<string>, encoding: Value, decode: Decoder)
    requires |keys| > 0 && Field(atts, keys[0]).Obj?
    requires Encode(Field(Field(atts, keys[0]).props, "data"), encoding, decode).Ok?
    ensures var next := Put(atts, keys[0], EncodedEntry(Field(atts, keys[0]), encoding, decode));
            EncodeEntries(atts, keys, encoding, decode) == EncodeEntries(next, keys[1..], encoding, decode)
  {
  }

  /** When every listed entry is an object whose `data` encodes, the loop
      runs to the end, encodes the `data` of each listed entry and nothing
      else, and leaves every other key alone. */
  lemma {:induction false} EncodeEntriesAt(atts: Props, keys: seq<string>, encoding: Value,
                                           decode: Decoder, k: string)
    requires Distinct(keys) && EncodesCleanly(atts, keys, encoding, decode)
    ensures var r := EncodeEntries(atts, keys, encoding, decode);
            && r.Ok?
            && Field(r.value, k) == if k in keys then EncodedEntry(Field(atts, k), encoding, decode)
                                    else Field(atts, k)
    decreases |keys|
  {
    if |keys| > 0 {
      var entry := Field(atts, keys[0]);
      var next := Put(atts, keys[0], EncodedEntry(entry, encoding, decode));
      EncodeEntriesStep(atts, keys, encoding, decode);
      assert k in keys <==> k == keys[0] || k in keys[1..];
      EncodeEntriesAt(next, keys[1..], encoding, decode, k);
    }
  }

  /** The loop only replaces entries, so the keys keep their order. */
  lemma {:induction false} EncodeEntriesKeepsKeys(atts: Props, keys: seq<string>, encoding: Value,
                                                  decode: Decoder)
    requires Distinct(keys) && EncodesCleanly(atts, keys, encoding, decode)
    requires forall i :: 0 <= i < |keys| ==> HasKey(atts, keys[i])
    ensures EncodeEntries(atts, keys, encoding, decode).Ok?
    ensures Keys(EncodeEntries(atts, keys, encoding, decode).value) == Keys(atts)
    decreases |keys|
  {
    if |keys| > 0 {
      var entry := Field(atts, keys[0]);
      var next := Put(atts, keys[0], EncodedEntry(entry, encoding, decode));
      PutKeys(atts, keys[0], EncodedEntry(entry, encoding, decode));
      EncodeEntriesStep(atts, keys, encoding, decode);
      assert forall i :: 1 <= i < |keys| ==> keys[1..][i - 1] == keys[i];
      EncodeEntriesKeepsKeys(next, keys[1..], encoding, decode);
    }
  }

  /** With the encoding `'none'`, entries that already carry `data` come
      through unchanged. */
  lemma {:induction false} NoneEncodingKeepsEntries(atts: Props, keys: seq<string>, decode: Decoder)
    requires forall i :: 0 <= i < |keys| ==>
               Field(atts, keys[i]).Obj? && HasKey(Field(atts, keys[i]).props, "data")
    ensures EncodeEntries(atts, keys, Str("none"), decode) == Ok(atts)
    decreases |keys|
  {
    if |keys| > 0 {
      var entry := Field(atts, keys[0]);
      PutSame(entry.props, "data");
      HasKeyOfLookup(atts, keys[0]);
      PutSame(atts, keys[0]);
      assert forall i :: 1 <= i < |keys| ==> keys[1..][i - 1] == keys[i];
      NoneEncodingKeepsEntries(atts, keys[1..], decode);
    }
  }

  lemma HasKeyOfLookup(ps: Props, k: string)
    requires Field(ps, k).Obj?
    ensures HasKey(ps, k)
  {
  }

  /** An entry the join filled, once encoded, holds the encoded body as
      its `data` and its other members as the document listed them. */
  lemma EncodedFilledEntry(entry: Value, body: Value, encoding: Value, decode: Decoder)
    requires entry.Obj? && Encode(body, encoding, decode).Ok?
    ensures Field(Filled(entry, body).props, "data") == body
    ensures EncodedEntry(Filled(entry, body), encoding, decode)
            == Obj(Put(entry.props, "data", Encode(body, encoding, decode).value))
  {
    PutPut(entry.props, "data", body, Encode(body, encoding, decode).value);
  }

  // ---------------------------------------------------------------
  // The node
  // ---------------------------------------------------------------

  /** The editor settings the constructor copies onto the node. */
  datatype AttachmentNode = AttachmentNode(database: Value, docId: Value, attachmentName: Value,
                                           encoding: Value)

  /** The node's own properties that `getProperty` may consult. Every
      node also has an `id`, which `getProperty` never reads from it. */
  function OwnProps(node: AttachmentNode): Props {
    [("database", node.database), ("docId", node.docId),
     ("attachmentName", node.attachmentName), ("encoding", node.encoding)]
  }

  /** The attachment name and the document id of a message: the node's
      own settings when they are truthy, else what the message says. */
  function Resolve(node: AttachmentNode, msg: Props): (r: Result<(Value, Value)>)
    ensures r.Ok? ==> Utils.GetProperty("attachmentName", Obj(msg), Some(OwnProps(node))) == Ok(r.value.0)
    ensures Truthy(node.attachmentName) && Truthy(node.docId) ==> r == Ok((node.attachmentName, node.docId))
    ensures Truthy(node.docId) && r.Ok? ==> r.value.1 == node.docId
    ensures !Truthy(node.docId) && r.Ok? ==>
              Utils.GetDocumentId(Obj(msg), Some(OwnProps(node))) == Ok(r.value.1)
    ensures r.Throw? <==>
              || Utils.GetProperty("attachmentName", Obj(msg), Some(OwnProps(node))).Throw?
              || (!Truthy(node.docId) && Utils.GetDocumentId(Obj(msg), Some(OwnProps(node))).Throw?)
  {
    assert Keys(OwnProps(node)) == ["database", "docId", "attachmentName", "encoding"];
    var name :- Utils.GetProperty("attachmentName", Obj(msg), Some(OwnProps(node)));
    var id :- if Truthy(node.docId) then Ok(node.docId)
              else Utils.GetDocumentId(Obj(msg), Some(OwnProps(node)));
    Ok((name, id))
  }

  /** The text logged when one attachment cannot be fetched. */
  function SingleFailureText(name: Value, id: Value, e: DbError): string {
    "Failed to retrieve attachment \"" + ToJsString(name) + "\" from \"" + ToJsString(id) + "\": "
    + ToJsString(e.description)
  }

  /** The text logged when one of all attachments cannot be fetched. */
  function AllFailureText(id: Value, e: DbError): string {
    "Failed to retrieve attachments from \"" + ToJsString(id) + "\": " + ToJsString(e.description)
  }

  /** The callback `handleMessage` gives `getAttachment`: on success the
      encoded body becomes the payload and the manifest entry the
      message's `attachment`; on failure the error is logged and the
      message goes out as it came. */
  function AnswerOne(node: AttachmentNode, msg: Props, name: Value, id: Value, cb: Callback<Fetched>,
                     decode: Decoder): (effects: seq<Effect>)
    ensures |effects| >= 1 && ErrorCount(effects) == (if cb.Failure? then 1 else 0)
    ensures SendCount(effects) == 1 <==> cb.Failure? || Encode(cb.resp.body, node.encoding, decode).Ok?
  {
    match cb
    case Failure(e) => [LogError(SingleFailureText(name, id, e)), Send(Obj(msg))]
    case Success(Fetched(entry, body)) =>
      match Encode(body, node.encoding, decode)
      case Throw(e) => [Crash(e)]
      case Ok(payload) => [Send(Obj(Put(Put(msg, "payload", payload), "attachment", entry)))]
  }

  /** The callback `handleMessage` gives `getAllAttachments`. The message
      it was given is returned with the payload a success stores on it. */
  function AnswerAll(node: AttachmentNode, msg: Props, id: Value, cb: Callback<Props>,
                     decode: Decoder): (r: (Props, seq<Effect>))
    ensures |r.1| >= 1
    ensures cb.Failure? ==> r == (msg, [LogError(AllFailureText(id, cb.err)), Send(Obj(msg))])
  {
    match cb
    case Failure(e) => (msg, [LogError(AllFailureText(id, e)), Send(Obj(msg))])
    case Success(atts) =>
      match EncodeEntries(atts, Keys(atts), node.encoding, decode)
      case Throw(e) => (msg, [Crash(e)])
      case Ok(encoded) =>
        var m := Put(msg, "payload", Obj(encoded));
        (m, [Send(Obj(m))])
  }

  predicate EndsInCrash(effects: seq<Effect>) {
    |effects| > 0 && effects[|effects| - 1].Crash?
  }

  /** The callbacks answered in order; an exception in one ends the
      process. */
  function AnswerEach(node: AttachmentNode, msg: Props, id: Value, cbs: seq<Callback<Props>>,
                      decode: Decoder): seq<Effect>
    decreases |cbs|
  {
    if |cbs| == 0 then []
    else
      var (m, effects) := AnswerAll(node, msg, id, cbs[0], decode);
      if EndsInCrash(effects) then effects
      else effects + AnswerEach(node, m, id, cbs[1..], decode)
  }

  lemma AnswerEachFailure(node: AttachmentNode, msg: Props, id: Value, cbs: seq<Callback<Props>>,
                          decode: Decoder)
    requires |cbs| > 0 && cbs[0].Failure?
    ensures AnswerEach(node, msg, id, cbs, decode)
            == [LogError(AllFailureText(id, cbs[0].err)), Send(Obj(msg))] + AnswerEach(node, msg, id, cbs[1..], decode)
  {
  }

  /** Failures only: each one is logged and answered with the message as
      it came, so k failures give k errors and k sends. */
  lemma {:induction false} FailuresAnsweredSeparately(node: AttachmentNode, msg: Props, id: Value,
                                                      cbs: seq<Callback<Props>>, decode: Decoder)
    requires forall j :: 0 <= j < |cbs| ==> cbs[j].Failure?
    ensures var effects := AnswerEach(node, msg, id, cbs, decode);
            && ErrorCount(effects) == |cbs| && SendCount(effects) == |cbs|
            && forall e :: e in effects ==> e.LogError? || e == Send(Obj(msg))
    decreases |cbs|
  {
    if |cbs| > 0 {
      AnswerEachFailure(node, msg, id, cbs, decode);
      var head := [LogError(AllFailureText(id, cbs[0].err)), Send(Obj(msg))];
      assert forall j :: 1 <= j < |cbs| ==> cbs[1..][j - 1] == cbs[j];
      FailuresAnsweredSeparately(node, msg, id, cbs[1..], decode);
      CountsAppend(head, AnswerEach(node, msg, id, cbs[1..], decode));
    }
  }

  /** Everything after the document arrived, when the message names no
      attachment. */
  function AllPath(node: AttachmentNode, msg: Props, id: Value, doc: Value, events: seq<Event>,
                   decode: Decoder): Outcome
  {
    match GetAllAttachments(doc, events)
    case Throw(e) => Outcome([], [Crash(e)])
    case Ok(run) =>
      var answered := AnswerEach(node, msg, id, run.end.callbacks, decode);
      var escaped := if run.end.crash.Some? && !EndsInCrash(answered) then [Crash(run.end.crash.value)] else [];
      Outcome(run.calls, answered + escaped)
  }

  /** Everything after the document arrived, when the message names an
      attachment. Only the first completion matters: one request is made. */
  function SinglePath(node: AttachmentNode, msg: Props, name: Value, id: Value, doc: Value,
                      reply: Option<DbReply>, decode: Decoder): Outcome
  {
    match GetAttachment(doc, name, reply)
    case Throw(e) => Outcome([], [Crash(e)])
    case Ok(run) =>
      Outcome([run.call], match run.callback
                          case None => []
                          case Some(cb) => AnswerOne(node, msg, name, id, cb, decode))
  }

  /** The input handler: resolve the name and id, fetch the document,
      then the attachments. A failed document fetch calls `node.erro`,
      which is not a function, so the handler throws there and the
      message is never sent. */
  function OnInput(node: AttachmentNode, msg: Props, docReply: Option<DbReply>, fetches: seq<Event>,
                   decode: Decoder): (out: Outcome)
    ensures Resolve(node, msg).Throw? ==> out == Outcome([], [Crash(Resolve(node, msg).error)])
    ensures Resolve(node, msg).Ok? ==> |out.calls| >= 1 && out.calls[0] == GetDoc(Resolve(node, msg).value.1)
    ensures Resolve(node, msg).Ok? && (docReply.None? || docReply.value.Failed?) ==> |out.calls| == 1
    ensures docReply.Some? && docReply.value.Failed? ==> SendCount(out.effects) == 0
  {
    match Resolve(node, msg)
    case Throw(e) => Outcome([], [Crash(e)])
    case Ok((name, id)) =>
      match docReply
      case None => Outcome([GetDoc(id)], [])
      case Some(Failed(_)) => Outcome([GetDoc(id)], [Crash(TypeError("node.erro is not a function"))])
      case Some(Done(doc)) =>
        var rest := if Truthy(name)
                    then SinglePath(node, msg, name, id, doc,
                                    if |fetches| > 0 then Some(fetches[0].reply) else None, decode)
                    else AllPath(node, msg, id, doc, fetches, decode);
        Outcome([GetDoc(id)] + rest.calls, rest.effects)
  }

  /** The editor settings of a `cloudant attachment in` node. */
  datatype AttachmentConfig = AttachmentConfig(
    database: Value,
    docid: Value,
    attachmentname: Value,
    encoding: Value,
    service: string,
    cloudant: Value)

  /** The constructor copies the settings as they are: unlike the other
      nodes, this one does not clean the database name. */
  function NewAttachmentNode(config: AttachmentConfig): (n: AttachmentNode)
    ensures n.database == config.database && n.docId == config.docid
    ensures n.attachmentName == config.attachmentname && n.encoding == config.encoding
  {
    AttachmentNode(config.database, config.docid, config.attachmentname, config.encoding)
  }

  /** The constructor's observable work: the configuration lookup, then
      the connection, whose error (if any) is `connectError`. It never
      warns about a renamed database. */
  function Startup(config: AttachmentConfig,
                   getNode: Value -> Option<Configuration.ConfigNode>,
                   getService: string -> Value,
                   connectError: Option<DbError>): (out: Outcome)
    ensures out.calls == [] && |out.effects| <= 1
    ensures forall e :: e in out.effects ==> !e.LogWarn?
    ensures Utils.GetCloudantConfig(config.service, config.cloudant, getNode, getService).Throw?
            ==> out.effects == [Crash(Utils.GetCloudantConfig(config.service, config.cloudant, getNode, getService).error)]
    ensures var c := Utils.GetCloudantConfig(config.service, config.cloudant, getNode, getService);
            c.Ok? && Utils.ClientCredentials(c.value).Throw? ==>
              out.effects == [Crash(Utils.ClientCredentials(c.value).error)]
    ensures var c := Utils.GetCloudantConfig(config.service, config.cloudant, getNode, getService);
            c.Ok? && Utils.ClientCredentials(c.value).Ok? && connectError.Some? ==>
              out.effects == [LogError(ToJsString(connectError.value.description))]
    ensures out.effects == [] <==>
              && Utils.GetCloudantConfig(config.service, config.cloudant, getNode, getService).Ok?
              && Utils.ClientCredentials(Utils.GetCloudantConfig(config.service, config.cloudant, getNode, getService).value).Ok?
              && connectError.None?
  {
    match Utils.GetCloudantConfig(config.service, config.cloudant, getNode, getService)
    case Throw(e) => Outcome([], [Crash(e)])
    case Ok(cfg) =>
      match Utils.ClientCredentials(cfg)
      case Throw(e) => Outcome([], [Crash(e)])
      case Ok(_) =>
        match connectError
        case Some(e) => Outcome([], [LogError(ToJsString(e.description))])
        case None => Outcome([], [])
  }

  // ---------------------------------------------------------------
  // End to end
  // ---------------------------------------------------------------

  /** Once the document arrives, the resolved name picks the path: a
      truthy name fetches that one attachment, any other fetches them all.
      This holds whether the name and id came from the settings, the
      message or its payload. */
  lemma ResolvedDispatch(node: AttachmentNode, msg: Props, doc: Value, fetches: seq<Event>,
                         decode: Decoder)
    requires Resolve(node, msg).Ok?
    ensures var (name, id) := Resolve(node, msg).value;
            var rest := if Truthy(name)
                        then SinglePath(node, msg, name, id, doc,
                                        if |fetches| > 0 then Some(fetches[0].reply) else None, decode)
                        else AllPath(node, msg, id, doc, fetches, decode);
            OnInput(node, msg, Some(Done(doc)), fetches, decode)
            == Outcome([GetDoc(id)] + rest.calls, rest.effects)
  {
  }

  /** A truthy attachment name and document id in the node's settings
      decide the request, whatever the message holds. */
  lemma ConfiguredSettingsWin(node: AttachmentNode, msg: Props, doc: Value, fetches: seq<Event>,
                              decode: Decoder)
    requires Truthy(node.attachmentName) && Truthy(node.docId)
    ensures var rest := SinglePath(node, msg, node.attachmentName, node.docId, doc,
                                   if |fetches| > 0 then Some(fetches[0].reply) else None, decode);
            OnInput(node, msg, Some(Done(doc)), fetches, decode)
            == Outcome([GetDoc(node.docId)] + rest.calls, rest.effects)
  {
  }

  /** A failed document fetch ends in the TypeError of the misspelt
      `node.erro`; the message is never sent. */
  lemma DocumentFailureNeverAnswers(node: AttachmentNode, msg: Props, e: DbError, fetches: seq<Event>,
                                    decode: Decoder)
    requires Resolve(node, msg).Ok?
    ensures OnInput(node, msg, Some(Failed(e)), fetches, decode)
            == Outcome([GetDoc(Resolve(node, msg).value.1)], [Crash(TypeError("node.erro is not a function"))])
  {
  }

  /** A fetched attachment is sent encoded as the payload, with the
      document's manifest entry for it as `attachment`. */
  lemma SingleAttachmentSent(node: AttachmentNode, msg: Props, name: Value, id: Value, doc: Props,
                             body: Value, decode: Decoder)
    requires Field(doc, "_attachments").Obj?
    requires Encode(body, node.encoding, decode).Ok?
    ensures var entry := Field(Field(doc, "_attachments").props, ToJsString(name));
            var sent := Put(Put(msg, "payload", Encode(body, node.encoding, decode).value), "attachment", entry);
            SinglePath(node, msg, name, id, Obj(doc), Some(Done(body)), decode)
            == Outcome([FetchAttachment(Field(doc, "_id"), name)], [Send(Obj(sent))])
  {
  }

  lemma {:induction false} NothingCountsForNoRequest(events: seq<Event>)
    ensures DoneCount(events, 0) == 0 && FailedCount(events, 0) == 0
  {
    if |events| > 0 {
      NothingCountsForNoRequest(events[1..]);
    }
  }

  /** A document that lists no attachments makes no request and never
      answers the message. */
  lemma {:induction false} EmptyManifestNeverAnswers(node: AttachmentNode, msg: Props, id: Value, doc: Props,
                                                     events: seq<Event>, decode: Decoder)
    requires Field(doc, "_attachments") == Obj([])
    ensures AllPath(node, msg, id, Obj(doc), events, decode) == Outcome([], [])
  {
    var t := Join(Start([]), [], events);
    JoinCounts(Start([]), [], events);
    NothingCountsForNoRequest(events);
    CallbackCountsSum(t.callbacks);
    assert t.callbacks == [];
    assert FetchCalls(Field(doc, "_id"), []) == [];
  }

  /** Once all N requests have completed and some failed, each failure is
      logged and answered with the message as it came, and nothing else
      is sent. */
  lemma {:induction false} FailedFetchesAnsweredOnceEach(node: AttachmentNode, msg: Props, id: Value,
                                                         doc: Props, events: seq<Event>, decode: Decoder)
    requires Field(doc, "_attachments").Obj?
    requires var ps := Field(doc, "_attachments").props;
             && EntriesAreObjects(ps, Keys(ps))
             && Answering(events, |Keys(ps)|) && |events| == |Keys(ps)|
             && FailedCount(events, |Keys(ps)|) > 0
    ensures var out := AllPath(node, msg, id, Obj(doc), events, decode);
            var k := FailedCount(events, |events|);
            && ErrorCount(out.effects) == k && SendCount(out.effects) == k
            && forall e :: e in out.effects ==> e.LogError? || e == Send(Obj(msg))
  {
    var ps := Field(doc, "_attachments").props;
    var t := Join(Start(ps), Keys(ps), events);
    JoinSucceedsOnceIffAllSucceed(ps, events);
    EventCounts(events, |Keys(ps)|);
    assert SuccessCount(t.callbacks) == 0;
    NoSuccessMeansFailures(t.callbacks);
    FailuresAnsweredSeparately(node, msg, id, t.callbacks, decode);
    AllPathWithoutCrash(node, msg, id, doc, events, decode);
  }

  /** When no completion throws, the path's effects are the answers to
      the join's callbacks. */
  lemma AllPathWithoutCrash(node: AttachmentNode, msg: Props, id: Value, doc: Props, events: seq<Event>,
                            decode: Decoder)
    requires Field(doc, "_attachments").Obj?
    requires var ps := Field(doc, "_attachments").props;
             Join(Start(ps), Keys(ps), events).crash.None?
    ensures var ps := Field(doc, "_attachments").props;
            AllPath(node, msg, id, Obj(doc), events, decode)
            == Outcome(FetchCalls(Field(doc, "_id"), Keys(ps)),
                       AnswerEach(node, msg, id, Join(Start(ps), Keys(ps), events).callbacks, decode))
  {
    var ps := Field(doc, "_attachments").props;
    var answered := AnswerEach(node, msg, id, Join(Start(ps), Keys(ps), events).callbacks, decode);
    assert answered + [] == answered;
  }

  /** Every listed entry has its fetched body; each encodes. */
  predicate BodiesEncode(ps: Props, events: seq<Event>, encoding: Value, decode: Decoder) {
    forall i :: 0 <= i < |Keys(ps)| ==>
      BodyFor(events, i).Some? && Encode(BodyFor(events, i).value, encoding, decode).Ok?
  }

  /** After the join, every entry is its stub filled with its body. */
  lemma FilledAfterJoin(ps: Props, events: seq<Event>, encoding: Value, decode: Decoder)
    requires UniqueKeys(ps) && EntriesAreObjects(ps, Keys(ps))
    requires BodiesEncode(ps, events, encoding, decode)
    ensures var t := Join(Start(ps), Keys(ps), events);
            && Distinct(Keys(ps))
            && EncodesCleanly(t.atts, Keys(ps), encoding, decode)
            && forall i :: 0 <= i < |Keys(ps)| ==>
                 Field(t.atts, Keys(ps)[i]) == Filled(Field(ps, Keys(ps)[i]), BodyFor(events, i).value)
  {
    var keys := Keys(ps);
    var t := Join(Start(ps), keys, events);
    UniqueKeysDistinct(ps);
    forall i | 0 <= i < |keys|
      ensures Field(t.atts, keys[i]) == Filled(Field(ps, keys[i]), BodyFor(events, i).value)
      ensures Field(t.atts, keys[i]).Obj?
      ensures Encode(Field(Field(t.atts, keys[i]).props, "data"), encoding, decode).Ok?
    {
      JoinFillsEntry(Start(ps), keys, events, i);
      EncodedFilledEntry(Field(ps, keys[i]), BodyFor(events, i).value, encoding, decode);
    }
  }

  /** In the manifest that is sent, each entry is the document's stub
      with the encoded body as its `data`. */
  lemma SentEntry(ps: Props, events: seq<Event>, encoding: Value, decode: Decoder, i: nat)
    requires UniqueKeys(ps) && EntriesAreObjects(ps, Keys(ps))
    requires BodiesEncode(ps, events, encoding, decode)
    requires i < |Keys(ps)|
    ensures var t := Join(Start(ps), Keys(ps), events);
            var r := EncodeEntries(t.atts, Keys(ps), encoding, decode);
            && r.Ok?
            && Field(r.value, Keys(ps)[i])
               == Obj(Put(Field(ps, Keys(ps)[i]).props, "data",
                          Encode(BodyFor(events, i).value, encoding, decode).value))
  {
    var keys := Keys(ps);
    var t := Join(Start(ps), keys, events);
    FilledAfterJoin(ps, events, encoding, decode);
    EncodeEntriesAt(t.atts, keys, encoding, decode, keys[i]);
    EncodedFilledEntry(Field(ps, keys[i]), BodyFor(events, i).value, encoding, decode);
  }

  /** When every fetch succeeds, the message goes out once, with the
      manifest, keys in the document's order and each entry filled and
      encoded, as its payload. */
  lemma {:induction false} AllFetchedSendsManifest(node: AttachmentNode, msg: Props, id: Value, doc: Props,
                                                   events: seq<Event>, decode: Decoder)
    requires Field(doc, "_attachments").Obj?
    requires var ps := Field(doc, "_attachments").props;
             && UniqueKeys(ps) && EntriesAreObjects(ps, Keys(ps))
             && Answering(events, |Keys(ps)|) && |events| == |Keys(ps)| > 0
             && (forall j :: 0 <= j < |events| ==> events[j].reply.Done?)
             && BodiesEncode(ps, events, node.encoding, decode)
    ensures var ps := Field(doc, "_attachments").props;
            var t := Join(Start(ps), Keys(ps), events);
            var r := EncodeEntries(t.atts, Keys(ps), node.encoding, decode);
            && r.Ok? && Keys(r.value) == Keys(ps)
            && AllPath(node, msg, id, Obj(doc), events, decode)
               == Outcome(FetchCalls(Field(doc, "_id"), Keys(ps)), [Send(Obj(Put(msg, "payload", Obj(r.value))))])
  {
    var ps := Field(doc, "_attachments").props;
    var keys := Keys(ps);
    var t := Join(Start(ps), keys, events);
    AllSucceedCallsBackOnce(ps, events);
    FilledAfterJoin(ps, events, node.encoding, decode);
    EncodeEntriesKeepsKeys(t.atts, keys, node.encoding, decode);
    var r := EncodeEntries(t.atts, keys, node.encoding, decode);
    var m := Put(msg, "payload", Obj(r.value));
    assert AnswerAll(node, msg, id, Success(t.atts), decode) == (m, [Send(Obj(m))]);
    assert AnswerEach(node, msg, id, t.callbacks, decode) == [Send(Obj(m))];
    AllPathWithoutCrash(node, msg, id, doc, events, decode);
  }
}
