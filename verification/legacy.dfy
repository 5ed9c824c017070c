/** The first generation of the plugin (77-cloudant-cf.js, strict mode):
    a configuration node that builds an authenticated URL from credentials
    the plugin stores through its own editor endpoints, an output node that
    inserts or deletes documents, and an input node that runs a search. */
module Legacy {
  import opened Text
  import opened Values
  import opened Db
  import Messages
  import Modify
  import Utils
  import Configuration

  /** How many times an insert is retried after a missing database. */
  const MaxAttempts: nat := 3

  // ---------------------------------------------------------------
  // Credential endpoints
  // ---------------------------------------------------------------

  /** The credentials the runtime keeps, by node id. */
  type Store = map<string, Props>

  function Stored(store: Store, id: string): Option<Props> {
    if id in store then Some(store[id]) else None
  }

  /** `password && password !== ""`: a truthy password can never be the
      empty string, so this is `true` for a truthy password and the falsy
      password itself otherwise. */
  function HasPasswordValue(password: Value): (r: Value)
    ensures r == Bool(true) <==> Truthy(password)
    ensures !Truthy(r) <==> !Truthy(password)
    ensures !(r.Str? && r.s != "")
  {
    if Truthy(password) then Bool(true) else password
  }

  /** GET `/cloudant/:id`: the user name and whether a password is set,
      as `JSON.stringify` writes them (an `undefined` member is left out).
      With nothing stored the answer is `{}`. */
  function CredentialSummary(stored: Option<Props>): (r: Props)
    ensures stored.None? ==> r == []
    ensures forall i :: 0 <= i < |r| ==> r[i].0 in ["user", "hasPassword"] && !r[i].1.Undefined?
    ensures stored.Some? ==>
              (Lookup(r, "hasPassword") == Some(Bool(true)) <==> Truthy(Field(stored.value, "password")))
    ensures stored.Some? && !Field(stored.value, "user").Undefined? ==>
              Lookup(r, "user") == Some(Field(stored.value, "user"))
    ensures stored.Some? && Field(stored.value, "user").Undefined? ==> Lookup(r, "user") == None
  {
    match stored
    case None => []
    case Some(ps) =>
      var user := Field(ps, "user");
      var has := HasPasswordValue(Field(ps, "password"));
      var first: Props := if user.Undefined? then [] else [("user", user)];
      var second: Props := if has.Undefined? then [] else [("hasPassword", has)];
      SummaryLookup(first, second, user, has);
      first + second
  }

  lemma SummaryLookup(first: Props, second: Props, user: Value, has: Value)
    requires first == if user.Undefined? then [] else [("user", user)]
    requires second == if has.Undefined? then [] else [("hasPassword", has)]
    ensures Lookup(first + second, "user") == if user.Undefined? then None else Some(user)
    ensures Lookup(first + second, "hasPassword") == if has.Undefined? then None else Some(has)
  {
    var r := first + second;
    if !user.Undefined? {
      assert r[0] == ("user", user) && r[1..] == second;
    } else {
      assert r == second;
    }
  }

  /** The user-name half of POST `/cloudant/:id`: a missing, `null` or
      empty user (loosely compared) is deleted, anything else stored. */
  function SetUser(creds: Props, user: Value): (r: Props)
    ensures LooseEqualsNull(user) || LooseEqualsEmpty(user) ==> Lookup(r, "user") == None
    ensures !(LooseEqualsNull(user) || LooseEqualsEmpty(user)) ==> Lookup(r, "user") == Some(user)
    ensures forall k :: k != "user" ==> Lookup(r, k) == Lookup(creds, k)
  {
    if LooseEqualsNull(user) || LooseEqualsEmpty(user) then Remove(creds, "user")
    else Put(creds, "user", user)
  }

  /** The password half: an empty password (loosely compared) is deleted;
      otherwise a truthy new password replaces the stored one, and a
      missing one writes the stored value back. */
  function SetPassword(creds: Props, password: Value): (r: Props)
    ensures LooseEqualsEmpty(password) ==> Lookup(r, "password") == None
    ensures !LooseEqualsEmpty(password) && Truthy(password) ==> Lookup(r, "password") == Some(password)
    ensures !LooseEqualsEmpty(password) && !Truthy(password) ==>
              Lookup(r, "password") == Some(Field(creds, "password"))
    ensures forall k :: k != "password" ==> Lookup(r, k) == Lookup(creds, k)
  {
    if LooseEqualsEmpty(password) then Remove(creds, "password")
    else Put(creds, "password", Or(password, Field(creds, "password")))
  }

  /** POST `/cloudant/:id` once the form is parsed (`querystring.parse` is
      outside the model; `form` is its result): the stored credentials, or
      `{}`, with the user and password updated and every other member
      kept. */
  function MergeCredentials(stored: Option<Props>, form: Props): (r: Props)
    ensures var user := Field(form, "user");
            (LooseEqualsNull(user) || LooseEqualsEmpty(user) ==> Lookup(r, "user") == None)
            && (!(LooseEqualsNull(user) || LooseEqualsEmpty(user)) ==> Lookup(r, "user") == Some(user))
    ensures var password := Field(form, "password");
            (LooseEqualsEmpty(password) ==> Lookup(r, "password") == None)
            && (!LooseEqualsEmpty(password) && Truthy(password) ==> Lookup(r, "password") == Some(password))
    ensures stored.None? ==> forall k :: k != "user" && k != "password" ==> Lookup(r, k) == None
    ensures stored.Some? ==> forall k :: k != "user" && k != "password" ==> Lookup(r, k) == Lookup(stored.value, k)
  {
    var creds := if stored.Some? then stored.value else [];
    SetPassword(SetUser(creds, Field(form, "user")), Field(form, "password"))
  }

  /** A form without a password member leaves the stored password as it
      was. */
  lemma MissingPasswordKept(stored: Props, form: Props)
    requires !HasKey(form, "password")
    ensures Field(MergeCredentials(Some(stored), form), "password") == Field(stored, "password")
  {
  }

  function PostCredentials(store: Store, id: string, form: Props): (r: Store)
    ensures r.Keys == store.Keys + {id}
    ensures r[id] == MergeCredentials(Stored(store, id), form)
    ensures forall other :: other in store && other != id ==> r[other] == store[other]
  {
    store[id := MergeCredentials(Stored(store, id), form)]
  }

  /** DELETE `/cloudant/:id`. */
  function DeleteCredentials(store: Store, id: string): (r: Store)
    ensures id !in r
    ensures forall other :: other != id ==> (other in r <==> other in store)
    ensures forall other :: other in r ==> r[other] == store[other]
  {
    store - {id}
  }

  function GetCredentials(store: Store, id: string): Props {
    CredentialSummary(Stored(store, id))
  }

  /** Posting a user and a non-empty password and reading them back shows
      that user and `hasPassword: true`, never the password. */
  lemma PostThenGet(store: Store, id: string, user: string, password: string)
    requires user != "" && password != ""
    ensures GetCredentials(PostCredentials(store, id, [("user", Str(user)), ("password", Str(password))]), id)
            == [("user", Str(user)), ("hasPassword", Bool(true))]
  {
    var form := [("user", Str(user)), ("password", Str(password))];
    var merged := MergeCredentials(Stored(store, id), form);
    assert form[1..] == [("password", Str(password))];
    assert |"user"| != |"password"|;
    assert Lookup(form, "password") == Lookup(form[1..], "password");
    assert Field(form, "user") == Str(user);
    assert Field(form, "password") == Str(password);
    assert Field(merged, "user") == Str(user) && Field(merged, "password") == Str(password);
  }

  /** Posting an empty password clears it: the summary no longer reports
      one. */
  lemma EmptyPasswordClears(store: Store, id: string, form: Props)
    requires Field(form, "password") == Str("")
    ensures Lookup(GetCredentials(PostCredentials(store, id, form), id), "hasPassword") == None
  {
    var merged := MergeCredentials(Stored(store, id), form);
    assert Field(merged, "password") == Undefined;
  }

  /** After a delete the endpoint answers `{}`; other ids are untouched. */
  lemma DeleteThenGet(store: Store, id: string, other: string)
    requires other != id
    ensures GetCredentials(DeleteCredentials(store, id), id) == []
    ensures GetCredentials(DeleteCredentials(store, id), other) == GetCredentials(store, other)
  {
  }

  /** Submitting the same form twice stores what submitting it once
      does. */
  lemma {:induction false} MergeIdempotent(stored: Option<Props>, form: Props)
    ensures MergeCredentials(Some(MergeCredentials(stored, form)), form) == MergeCredentials(stored, form)
  {
    var creds := if stored.Some? then stored.value else [];
    var user, password := Field(form, "user"), Field(form, "password");
    var once := MergeCredentials(stored, form);
    var u := SetUser(once, user);
    if LooseEqualsNull(user) || LooseEqualsEmpty(user) {
      assert !HasKey(once, "user");
    } else {
      assert Field(once, "user") == user;
      PutSame(once, "user");
    }
    assert u == once;
    if !LooseEqualsEmpty(password) {
      assert HasKey(once, "password");
      var kept := Field(once, "password");
      assert Or(password, Field(u, "password")) == kept;
      PutSame(once, "password");
    } else {
      assert !HasKey(once, "password");
    }
  }

  // ---------------------------------------------------------------
  // The configuration node
  // ---------------------------------------------------------------

  /** What `url.parse` reports about the configured host: the protocol
      (`null` when there is none) and the host name, plus the parts the
      node ignores. `url.parse` is a parameter of the model. */
  datatype ParsedUrl = ParsedUrl(protocol: Value, hostname: Value, port: Value, pathname: Value)

  type UrlParser = string -> ParsedUrl

  /** `encodeURIComponent`, a parameter of the model. */
  type UriEncoder = string -> string

  datatype CloudantNode = CloudantNode(name: Value, hostname: Value, username: Value, password: Value, url: string)

  /** The text before the host in the URL: empty without both a user name
      and a password, `user:encoded-password@` with them. The user name is
      not encoded. */
  function UserInfo(username: Value, password: Value, encode: UriEncoder): (r: string)
    ensures r == "" <==> !(Truthy(username) && Truthy(password))
    ensures r != "" ==> r == ToJsString(username) + ":" + encode(ToJsString(password)) + "@"
  {
    if Truthy(username) && Truthy(password) then
      ToJsString(username) + ":" + encode(ToJsString(password)) + "@"
    else ""
  }

  /** `protocol + '//' + userinfo + hostname`. */
  function AuthUrl(p: ParsedUrl, username: Value, password: Value, encode: UriEncoder): (url: string)
    ensures var scheme := ToJsString(p.protocol) + "//";
            var host := ToJsString(p.hostname);
            |url| >= |scheme| + |host| && url[..|scheme|] == scheme && url[|url| - |host|..] == host
            && url[|scheme|..|url| - |host|] == UserInfo(username, password, encode)
  {
    var scheme := ToJsString(p.protocol) + "//";
    var info := UserInfo(username, password, encode);
    var host := ToJsString(p.hostname);
    var url := scheme + info + host;
    assert url[..|scheme|] == scheme;
    assert url[|scheme|..|url| - |host|] == info;
    assert url[|url| - |host|..] == host;
    url
  }

  /** `CloudantNode(n)`: credentials come from the store when there are
      any. `url.parse` throws on a host that is not a string. */
  function NewCloudantNode(name: Value, hostname: Value, stored: Option<Props>,
                           parseUrl: UrlParser, encode: UriEncoder): (r: Result<CloudantNode>)
    ensures r.Throw? <==> !hostname.Str?
    ensures r.Ok? && stored.None? ==> r.value.url == ToJsString(parseUrl(hostname.s).protocol) + "//"
                                                    + ToJsString(parseUrl(hostname.s).hostname)
    ensures r.Ok? && stored.Some? ==> r.value.username == Field(stored.value, "user")
                                      && r.value.password == Field(stored.value, "password")
    ensures r.Ok? && stored.None? ==> r.value.username == Undefined && r.value.password == Undefined
    ensures r.Ok? ==> r.value.url == AuthUrl(parseUrl(hostname.s), r.value.username, r.value.password, encode)
  {
    var username := if stored.Some? then Field(stored.value, "user") else Undefined;
    var password := if stored.Some? then Field(stored.value, "password") else Undefined;
    if !hostname.Str? then Throw(TypeError("Parameter \"url\" must be a string"))
    else
      var url := AuthUrl(parseUrl(hostname.s), username, password, encode);
      assert stored.None? ==> UserInfo(username, password, encode) == "";
      Ok(CloudantNode(name, hostname, username, password, url))
  }

  /** Only the protocol and host name survive from the configured address:
      its port and path are dropped. */
  lemma PortAndPathDropped(p: ParsedUrl, q: ParsedUrl, username: Value, password: Value, encode: UriEncoder)
    requires p.protocol == q.protocol && p.hostname == q.hostname
    ensures AuthUrl(p, username, password, encode) == AuthUrl(q, username, password, encode)
  {
  }

  /** An address without a protocol starts the URL with `null//`. */
  lemma MissingProtocolExample(host: string, encode: UriEncoder)
    ensures AuthUrl(ParsedUrl(Null, Str(host), Null, Null), Undefined, Undefined, encode) == "null//" + host
  {
    var url := AuthUrl(ParsedUrl(Null, Str(host), Null, Null), Undefined, Undefined, encode);
    assert |url| == 6 + |host|;
    assert url[..6] == "null//" && url[6..] == host;
    assert url == url[..6] + url[6..];
  }

  /** Stored credentials reach the URL between the scheme and the host:
      the user name as it is, the password through `encodeURIComponent`. */
  lemma StoredCredentialsInUrl(name: Value, host: string, stored: Props,
                               parseUrl: UrlParser, encode: UriEncoder)
    requires Truthy(Field(stored, "user")) && Truthy(Field(stored, "password"))
    ensures var r := NewCloudantNode(name, Str(host), Some(stored), parseUrl, encode);
            var p := parseUrl(host);
            r.Ok? && r.value.url == ToJsString(p.protocol) + "//" + ToJsString(Field(stored, "user")) + ":"
                                    + encode(ToJsString(Field(stored, "password"))) + "@" + ToJsString(p.hostname)
  {
  }

  // ---------------------------------------------------------------
  // _getUrl
  // ---------------------------------------------------------------

  /** `_getUrl(node, n)`: the URL of the referenced configuration node
      for `_ext_`, the bound service's `credentials.url` for any other
      non-empty service name, `undefined` otherwise. An unbound service or
      a missing configuration node gives `undefined` rather than an
      error; a bound service without `credentials` throws. */
  function GetUrl(service: string, cloudantRef: Value, getNode: Value -> Option<CloudantNode>,
                  getService: string -> Value): (r: Result<Value>)
    ensures service == "_ext_" && getNode(cloudantRef).Some? ==> r == Ok(Str(getNode(cloudantRef).value.url))
    ensures service == "_ext_" && getNode(cloudantRef).None? ==> r == Ok(Undefined)
    ensures service == "" ==> r == Ok(Undefined)
    ensures service != "_ext_" && service != "" && !Truthy(getService(service)) ==> r == Ok(Undefined)
    ensures r.Throw? <==> service != "_ext_" && service != "" && Truthy(getService(service))
                          && LooseEqualsNull(Get(getService(service), "credentials").value)
    ensures var credentials := Get(getService(service), "credentials");
            service != "_ext_" && service != "" && Truthy(getService(service))
            && credentials.Ok? && credentials.value.Obj?
            ==> r == Ok(Field(credentials.value.props, "url"))
  {
    if service == "_ext_" then
      match getNode(cloudantRef)
      case Some(config) => Ok(Str(config.url))
      case None => Ok(Undefined)
    else if service != "" then
      var config := getService(service);
      if Truthy(config) then
        var credentials := Get(config, "credentials").value;
        Get(credentials, "url")
      else Ok(Undefined)
    else Ok(Undefined)
  }

  /** Where the current plugin throws for a service name that is not
      bound, the legacy one finds no URL. */
  lemma UnboundServiceContrast(service: string, cloudantRef: Value,
                               getNode: Value -> Option<CloudantNode>,
                               currentGetNode: Value -> Option<Configuration.ConfigNode>,
                               getService: string -> Value)
    requires service != "_ext_" && service != ""
    requires getService(service) == Undefined
    ensures GetUrl(service, cloudantRef, getNode, getService) == Ok(Undefined)
    ensures Utils.GetCloudantConfig(service, cloudantRef, currentGetNode, getService).Throw?
  {
  }

  // ---------------------------------------------------------------
  // The output node
  // ---------------------------------------------------------------

  datatype OutConfig = OutConfig(operation: Value, payonly: Value, database: Value,
                                 cloudant: Value, service: string)

  /** The node after its constructor ran with a URL; the database name is
      used as configured. */
  datatype OutNode = OutNode(operation: Value, payonly: Value, database: Value, url: Value)

  /** A reply the insert loop answers by creating the database and trying
      again, while it has attempts left: `err.status_code === 404`. */
  predicate IsMissingDatabase(r: DbReply) {
    r.Failed? && r.err.statusCode == Num(404)
  }

  /** `inserts` counts the insert requests; `end` is the reply handed to
      the callback, or None while the last insert is outstanding. */
  datatype LegacyRun = LegacyRun(inserts: nat, end: Option<DbReply>)

  /** `insertDocument(doc, db, attempts, cb)` as a fold over the replies
      to its successive inserts. The create request in between is awaited
      but its outcome ignored. */
  function InsertDocument(attempts: nat, replies: seq<DbReply>): (r: LegacyRun)
    ensures 1 <= r.inserts <= attempts + 1 && r.inserts <= |replies| + 1
    ensures r.end.None? <==> r.inserts == |replies| + 1
    ensures forall i :: 0 <= i < r.inserts - 1 ==> IsMissingDatabase(replies[i])
    ensures r.end.Some? ==> r.end.value == replies[r.inserts - 1]
                            && (r.inserts <= attempts ==> !IsMissingDatabase(r.end.value))
    decreases attempts
  {
    if |replies| == 0 then LegacyRun(1, None)
    else if IsMissingDatabase(replies[0]) && attempts > 0 then
      var rest := InsertDocument(attempts - 1, replies[1..]);
      LegacyRun(rest.inserts + 1, rest.end)
    else LegacyRun(1, Some(replies[0]))
  }

  /** The first reply that is not a missing database reaches the callback
      at once. */
  lemma FirstOtherReplyDelivered(attempts: nat, replies: seq<DbReply>, k: nat)
    requires k <= attempts && k < |replies|
    requires forall i :: 0 <= i < k ==> IsMissingDatabase(replies[i])
    requires !IsMissingDatabase(replies[k])
    ensures InsertDocument(attempts, replies) == LegacyRun(k + 1, Some(replies[k]))
  {
  }

  /** The requests of a run: each insert after the first follows a create
      request for the node's database. */
  function RunCalls(doc: Value, database: Value, inserts: nat): (calls: seq<DbCall>)
    requires inserts >= 1
    ensures |calls| == 2 * inserts - 1
    ensures forall i :: 0 <= i < |calls| ==> calls[i] == if i % 2 == 0 then Insert(doc) else CreateDb(database)
  {
    if inserts == 1 then [Insert(doc)]
    else
      var rest := RunCalls(doc, database, inserts - 1);
      var calls := [Insert(doc), CreateDb(database)] + rest;
      assert forall i :: 2 <= i < |calls| ==> calls[i] == rest[i - 2] && i % 2 == (i - 2) % 2;
      calls
  }

  /** The current node retries a server error and gives up on a missing
      database; the legacy node does the opposite. */
  lemma RetryContrast(e: DbError, f: DbError, body: Value)
    requires e.statusCode == Num(500) && !IsError(e, "not_found")
    requires f.statusCode == Num(404) && IsError(f, "not_found")
    ensures InsertDocument(MaxAttempts, [Failed(e), Done(body)]) == LegacyRun(1, Some(Failed(e)))
    ensures Modify.InsertDocument(Modify.MaxAttempts, [Failed(e), Done(body)])
            == Modify.InsertRun(2, Modify.Delivered(Done(body)))
    ensures InsertDocument(MaxAttempts, [Failed(f), Done(body)]) == LegacyRun(2, Some(Done(body)))
    ensures Modify.InsertDocument(Modify.MaxAttempts, [Failed(f), Done(body)]).end.Crashed?
  {
    assert [Failed(e), Done(body)][1..] == [Done(body)];
    assert [Failed(f), Done(body)][1..] == [Done(body)];
  }

  /** `body && body.indexOf(node.database) < 0` on the database list. On
      an array `indexOf` compares strictly; on a string it searches for the
      name's text. */
  function NeedsCreate(body: Value, database: Value): (r: Result<bool>)
    ensures !Truthy(body) ==> r == Ok(false)
    ensures body.Arr? ==> r == Ok(database !in body.elems)
    ensures r.Throw? ==> Truthy(body) && !body.Arr? && !body.Str?
  {
    if !Truthy(body) then Ok(false)
    else
      match body
      case Arr(es) => Ok(database !in es)
      case Str(s) => Ok(!Contains(s, ToJsString(database)))
      case Bytes(_) => Throw(Unmodelled("Buffer.prototype.indexOf"))
      case _ => Throw(TypeError("body.indexOf is not a function"))
  }

  function ReportFailure(reply: DbReply): (r: seq<Effect>)
    ensures r == [] <==> reply.Done?
    ensures reply.Failed? ==> r == [Report(reply.err)]
  {
    if reply.Failed? then [Report(reply.err)] else []
  }

  /** The constructor: find the URL; without one, log; with one, list the
      databases and create the node's database when it is not listed. */
  function OutStartup(config: OutConfig, getNode: Value -> Option<CloudantNode>, getService: string -> Value,
                      listReply: Option<DbReply>, createReply: Option<DbReply>): (out: Outcome)
    ensures var u := GetUrl(config.service, config.cloudant, getNode, getService);
            u.Ok? && !Truthy(u.value) ==> out == Outcome([], [LogError("missing cloudant configuration")])
    ensures var u := GetUrl(config.service, config.cloudant, getNode, getService);
            u.Ok? && Truthy(u.value) ==> 1 <= |out.calls| <= 2 && out.calls[0] == ListDbs
    ensures |out.calls| == 2 ==> listReply.Some? && listReply.value.Done?
                                 && NeedsCreate(listReply.value.body, config.database) == Ok(true)
                                 && out.calls[1] == CreateDb(config.database)
    ensures var u := GetUrl(config.service, config.cloudant, getNode, getService);
            u.Throw? ==> out == Outcome([], [Crash(u.error)])
    ensures var u := GetUrl(config.service, config.cloudant, getNode, getService);
            u.Ok? && Truthy(u.value) && listReply.Some? && listReply.value.Failed?
            ==> out == Outcome([ListDbs], [Report(listReply.value.err)])
    ensures var u := GetUrl(config.service, config.cloudant, getNode, getService);
            u.Ok? && Truthy(u.value) && listReply.Some? && listReply.value.Done?
            && NeedsCreate(listReply.value.body, config.database) == Ok(true)
            ==> && out.calls == [ListDbs, CreateDb(config.database)]
                && (createReply.Some? && createReply.value.Failed? ==> out.effects == [Report(createReply.value.err)])
                && (createReply.None? || createReply.value.Done? ==> out.effects == [])
    ensures var u := GetUrl(config.service, config.cloudant, getNode, getService);
            u.Ok? && Truthy(u.value) && listReply.Some? && listReply.value.Done?
            && NeedsCreate(listReply.value.body, config.database) == Ok(false)
            ==> out == Outcome([ListDbs], [])
  {
    match GetUrl(config.service, config.cloudant, getNode, getService)
    case Throw(e) => Outcome([], [Crash(e)])
    case Ok(url) =>
      if !Truthy(url) then Outcome([], [LogError("missing cloudant configuration")])
      else
        match listReply
        case None => Outcome([ListDbs], [])
        case Some(Failed(e)) => Outcome([ListDbs], [Report(e)])
        case Some(Done(body)) =>
          match NeedsCreate(body, config.database)
          case Throw(e) => Outcome([ListDbs], [Crash(e)])
          case Ok(false) => Outcome([ListDbs], [])
          case Ok(true) =>
            Outcome([ListDbs, CreateDb(config.database)],
                    if createReply.Some? then ReportFailure(createReply.value) else [])
  }

  function NewOutNode(config: OutConfig, url: Value): (n: OutNode)
    ensures Truthy(n.payonly) <==> Truthy(config.payonly)
    ensures n.database == config.database
  {
    OutNode(config.operation, Or(config.payonly, Bool(false)), config.database, url)
  }

  /** The delete branch once the document is parsed: `"_rev" in doc &&
      "_id" in doc` decides between the destroy request and an error. */
  function DeleteDocument(doc: Value): (r: Result<Option<DbCall>>)
    ensures r.Throw? <==> doc.Null? || !IsObject(doc)
    ensures doc.Obj? ==> (r == Ok(Some(Destroy(Field(doc.props, "_id"), Field(doc.props, "_rev"))))
                          <==> HasKey(doc.props, "_rev") && HasKey(doc.props, "_id"))
    ensures doc.Obj? ==> (r == Ok(None) <==> !(HasKey(doc.props, "_rev") && HasKey(doc.props, "_id")))
  {
    match In("_rev", doc)
    case Throw(e) => Throw(e)
    case Ok(hasRev) =>
      if hasRev && In("_id", doc).value then Ok(Some(Destroy(Get(doc, "_id").value, Get(doc, "_rev").value)))
      else Ok(None)
  }

  /** The legacy guard really stops a delete without a revision; the
      current node sends it regardless. */
  lemma DeleteGuardContrast(ps: Props)
    requires !HasKey(ps, "_rev")
    ensures DeleteDocument(Obj(ps)) == Ok(None)
    ensures Modify.DeleteDocument(Obj(ps)) == Ok(Destroy(Field(ps, "_id"), Undefined))
  {
  }

  const DeleteGuardText: string := "_rev and _id are required to delete a document"

  /** The input handler. `replies` answer the successive inserts;
      `destroyReply` answers the destroy request. */
  function OnInput(node: OutNode, msg: Props, parse: Messages.JsonParser,
                   replies: seq<DbReply>, destroyReply: Option<DbReply>): (out: Outcome)
    ensures node.operation != Str("insert") && node.operation != Str("delete") ==> out == Outcome([], [])
    ensures node.operation == Str("insert") ==>
              |out.calls| <= 2 * MaxAttempts + 1 && |out.effects| <= 1
              && (forall i :: 0 <= i < |out.effects| ==> out.effects[i].Report? || out.effects[i].Crash?)
    ensures node.operation == Str("delete") ==>
              |out.calls| <= 1 && |out.effects| <= 1
              && (out.effects == [LogError(DeleteGuardText)] ==> out.calls == [])
    ensures forall i :: 0 <= i < |out.effects| ==> !out.effects[i].Send?
    ensures var target := if Truthy(node.payonly) then Field(msg, "payload") else Obj(msg);
            var root := if Truthy(node.payonly) then "payload" else "msg";
            var run := InsertDocument(MaxAttempts, replies);
            node.operation == Str("insert") && Messages.ParseMessageRaw(target, root, parse).Ok?
            ==> && out.calls == RunCalls(Messages.ParseMessageRaw(target, root, parse).value, node.database, run.inserts)
                && (out.effects != [] <==> run.end.Some? && run.end.value.Failed?)
                && (run.end.Some? && run.end.value.Failed? ==> out.effects == [Report(run.end.value.err)])
    ensures var parsed := Messages.ParseMessageRaw(Or(Field(msg, "payload"), Obj(msg)), "", parse);
            node.operation == Str("delete") && parsed.Ok? && DeleteDocument(parsed.value).Ok?
            ==> match DeleteDocument(parsed.value).value
                case None => out == Outcome([], [LogError(DeleteGuardText)])
                case Some(call) =>
                  && out.calls == [call]
                  && (destroyReply.Some? && destroyReply.value.Failed? ==> out.effects == [Report(destroyReply.value.err)])
                  && (destroyReply.None? || destroyReply.value.Done? ==> out.effects == [])
    ensures var target := if node.operation == Str("insert") then
                            (if Truthy(node.payonly) then Field(msg, "payload") else Obj(msg))
                          else Or(Field(msg, "payload"), Obj(msg));
            var root := if node.operation == Str("insert") then
                          (if Truthy(node.payonly) then "payload" else "msg")
                        else "";
            (node.operation == Str("insert") || node.operation == Str("delete"))
            && Messages.ParseMessageRaw(target, root, parse).Throw?
            ==> out == Outcome([], [Crash(Messages.ParseMessageRaw(target, root, parse).error)])
  {
    if node.operation == Str("insert") then
      var target := if Truthy(node.payonly) then Field(msg, "payload") else Obj(msg);
      var root := if Truthy(node.payonly) then "payload" else "msg";
      match Messages.ParseMessageRaw(target, root, parse)
      case Throw(e) => Outcome([], [Crash(e)])
      case Ok(doc) =>
        var run := InsertDocument(MaxAttempts, replies);
        var report := if run.end.Some? then ReportFailure(run.end.value) else [];
        Outcome(RunCalls(doc, node.database, run.inserts), report)
    else if node.operation == Str("delete") then
      var target := Or(Field(msg, "payload"), Obj(msg));
      match Messages.ParseMessageRaw(target, "", parse)
      case Throw(e) => Outcome([], [Crash(e)])
      case Ok(doc) =>
        match DeleteDocument(doc)
        case Throw(e) => Outcome([], [Crash(e)])
        case Ok(None) => Outcome([], [LogError(DeleteGuardText)])
        case Ok(Some(call)) =>
          Outcome([call], if destroyReply.Some? then ReportFailure(destroyReply.value) else [])
    else Outcome([], [])
  }

  /** The legacy node stores the whole message as the document,
      `_msgid` included, where the current one removes it first. */
  lemma InsertKeepsMessageId(node: OutNode, ps: Props, parse: Messages.JsonParser, body: Value)
    requires node.operation == Str("insert") && !Truthy(node.payonly)
    requires HasKey(ps, "_msgid")
    ensures OnInput(node, ps, parse, [Done(body)], None) == Outcome([Insert(Obj(ps))], [])
  {
    assert InsertDocument(MaxAttempts, [Done(body)]) == LegacyRun(1, Some(Done(body)));
  }

  /** With `payonly` the payload object itself is the document. */
  lemma PayonlyInsertsPayload(node: OutNode, ps: Props, d: Props, parse: Messages.JsonParser, body: Value)
    requires node.operation == Str("insert") && Truthy(node.payonly)
    requires Field(ps, "payload") == Obj(d)
    ensures OnInput(node, ps, parse, [Done(body)], None) == Outcome([Insert(Obj(d))], [])
  {
    assert InsertDocument(MaxAttempts, [Done(body)]) == LegacyRun(1, Some(Done(body)));
  }

  /** A payload object carrying both `_id` and `_rev` is destroyed by
      them, and a failed destroy is reported. */
  lemma DeleteByPayloadIds(node: OutNode, ps: Props, d: Props, parse: Messages.JsonParser, e: DbError)
    requires node.operation == Str("delete")
    requires Field(ps, "payload") == Obj(d) && HasKey(d, "_id") && HasKey(d, "_rev")
    ensures OnInput(node, ps, parse, [], Some(Failed(e)))
            == Outcome([Destroy(Field(d, "_id"), Field(d, "_rev"))], [Report(e)])
  {
  }

  /** A missing database is created once and the insert repeated; the
      final error, if any, is reported. */
  lemma MissingDatabaseCreatedThenInserted(node: OutNode, ps: Props, parse: Messages.JsonParser,
                                           f: DbError, last: DbReply)
    requires node.operation == Str("insert") && !Truthy(node.payonly)
    requires f.statusCode == Num(404) && !IsMissingDatabase(last)
    ensures OnInput(node, ps, parse, [Failed(f), last], None)
            == Outcome([Insert(Obj(ps)), CreateDb(node.database), Insert(Obj(ps))], ReportFailure(last))
  {
    assert [Failed(f), last][1..] == [last];
    var calls := RunCalls(Obj(ps), node.database, 2);
    assert InsertDocument(MaxAttempts, [Failed(f), last]) == LegacyRun(2, Some(last));
    assert calls[0] == Insert(Obj(ps)) && calls[1] == CreateDb(node.database) && calls[2] == Insert(Obj(ps));
    assert calls == [Insert(Obj(ps)), CreateDb(node.database), Insert(Obj(ps))];
  }

  // ---------------------------------------------------------------
  // The input node
  // ---------------------------------------------------------------

  datatype InConfig = InConfig(design: Value, index: Value, database: Value, cloudant: Value, service: string)

  datatype InNode = InNode(design: Value, index: Value, database: Value, url: Value)

  /** The constructor: with a URL the node listens; without one it stays
      silent, logging nothing. */
  function NewInNode(config: InConfig, getNode: Value -> Option<CloudantNode>,
                     getService: string -> Value): (r: Result<Option<InNode>>)
    ensures var u := GetUrl(config.service, config.cloudant, getNode, getService);
            (r.Throw? <==> u.Throw?)
            && (u.Ok? ==> (r.value.Some? <==> Truthy(u.value)))
            && (r.Ok? && r.value.Some? ==>
                  (r.value.value.url == u.value && r.value.value.design == config.design
                   && r.value.value.index == config.index))
  {
    var url :- GetUrl(config.service, config.cloudant, getNode, getService);
    if Truthy(url) then Ok(Some(InNode(config.design, config.index, config.database, url)))
    else Ok(None)
  }

  /** The input handler: a search with the payload as the query; a result
      goes out as a new message holding only the payload. */
  function InOnInput(node: InNode, msg: Props, reply: Option<DbReply>): (out: Outcome)
    ensures out.calls == [Search(node.design, node.index, Obj([("q", Field(msg, "payload"))]))]
    ensures |out.effects| <= 1
    ensures forall i :: 0 <= i < |out.effects| && out.effects[i].Send? ==>
              reply.Some? && reply.value.Done? && out.effects[i].msg == Obj([("payload", reply.value.body)])
    ensures reply.Some? && reply.value.Failed? ==> out.effects == [Report(reply.value.err)]
  {
    var call := Search(node.design, node.index, Obj([("q", Field(msg, "payload"))]));
    match reply
    case None => Outcome([call], [])
    case Some(Done(doc)) => Outcome([call], [Send(Obj([("payload", doc)]))])
    case Some(Failed(e)) => Outcome([call], [Report(e)])
  }

  /** Without a URL the output node logs the missing configuration while
      the input node says nothing. */
  lemma UnconfiguredNodes(out: OutConfig, inn: InConfig, getNode: Value -> Option<CloudantNode>,
                          getService: string -> Value, listReply: Option<DbReply>, createReply: Option<DbReply>)
    requires out.service == "" && inn.service == ""
    ensures OutStartup(out, getNode, getService, listReply, createReply)
            == Outcome([], [LogError("missing cloudant configuration")])
    ensures NewInNode(inn, getNode, getService) == Ok(None)
  {
  }

  /** The search result replaces the message: its other members, topic
      and `_msgid` among them, do not travel on. */
  lemma SearchResultDropsMessage(node: InNode, msg: Props, doc: Value)
    ensures InOnInput(node, msg, Some(Done(doc))).effects == [Send(Obj([("payload", doc)]))]
  {
  }
}
