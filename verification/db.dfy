/** The database client seen from the nodes: every call the nodes make,
    the reply each call eventually receives, and what the nodes do in
    response (send a message, log, or let an exception escape). The
    client's own behaviour is not modelled: a node's run takes the replies
    as a given sequence. */
module Db {
  import opened Values

  /** The error object a client callback receives: `err.error` names the
      CouchDB error, `statusCode` is the HTTP status the legacy driver
      exposes as `status_code`, `description` is the human-readable text. */
  datatype DbError = DbError(error: Value, statusCode: Value, description: Value)

  /** The outcome of one request: a body, or an error object (which is
      always truthy). */
  datatype DbReply = Done(body: Value) | Failed(err: DbError)

  /** The requests the nodes issue. */
  datatype DbCall =
    | Insert(doc: Value)
    | CreateDb(name: Value)
    | Destroy(id: Value, rev: Value)
    | GetDoc(id: Value)
    | Search(design: Value, index: Value, options: Value)
    | ListDocs(options: Value)
    | ListDbs
    | FetchAttachment(docId: Value, name: Value)

  /** What a node does that an observer sees. `Report` is `node.error(err)`
      with the error object itself; `Crash` is an exception escaping a
      handler or callback. */
  datatype Effect =
    | Send(msg: Value)
    | LogWarn(text: string)
    | LogError(text: string)
    | Report(err: DbError)
    | Crash(error: JsError)

  /** The requests issued and the effects produced, each in order. */
  datatype Outcome = Outcome(calls: seq<DbCall>, effects: seq<Effect>)

  /** `err.error === name`. */
  predicate IsError(e: DbError, name: string) {
    e.error == Str(name)
  }

  /** `'<prefix>' + err.description`. */
  function Describe(prefix: string, e: DbError): (r: string)
    ensures |r| >= |prefix| && r[..|prefix|] == prefix
  {
    prefix + ToJsString(e.description)
  }

  /** How many messages the effects send. */
  function SendCount(effects: seq<Effect>): (n: nat)
    ensures n <= |effects|
  {
    if |effects| == 0 then 0
    else (if effects[0].Send? then 1 else 0) + SendCount(effects[1..])
  }

  /** How many errors the effects log. */
  function ErrorCount(effects: seq<Effect>): (n: nat)
    ensures n <= |effects|
  {
    if |effects| == 0 then 0
    else (if effects[0].LogError? then 1 else 0) + ErrorCount(effects[1..])
  }

  lemma {:induction false} CountsAppend(a: seq<Effect>, b: seq<Effect>)
    ensures SendCount(a + b) == SendCount(a) + SendCount(b)
    ensures ErrorCount(a + b) == ErrorCount(a) + ErrorCount(b)
  {
    if |a| == 0 {
      assert a + b == b;
    } else {
      assert (a + b)[1..] == a[1..] + b;
      CountsAppend(a[1..], b);
    }
  }
}
