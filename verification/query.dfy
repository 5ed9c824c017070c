/** The `cloudant in` node (cloudant-cf/nodes/query.js): per message it
    fetches one document by id, runs a search index query, or lists all
    documents, and sends the result on the message. */
module Query {
  import opened Text
  import opened Values
  import opened Db
  import Utils
  import Configuration

  // ---------------------------------------------------------------
  // formatSearchQuery
  // ---------------------------------------------------------------

  /** `key + ':' + value`. */
  function PairText(p: (string, Value)): string {
    p.0 + ":" + ToJsString(p.1)
  }

  /** The string the loop accumulates: every pair followed by a space. */
  function PairsText(ps: Props): (r: string)
    ensures |ps| == 0 <==> r == ""
  {
    if |ps| == 0 then "" else PairText(ps[0]) + " " + PairsText(ps[1..])
  }

  function PairTexts(ps: Props): seq<string> {
    seq(|ps|, i requires 0 <= i < |ps| => PairText(ps[i]))
  }

  /** `formatSearchQuery(query)`: scalars come back unchanged; an object
      with a `q` key gives that value; any other object gives its
      `key:value` pairs in enumeration order, space separated. `in` on
      `null` throws. */
  function FormatSearchQuery(query: Value): (r: Result<Value>)
    ensures !IsObject(query) ==> r == Ok(query)
    ensures query.Null? ==> r.Throw?
    ensures query.Obj? && HasKey(query.props, "q") ==> r == Ok(Field(query.props, "q"))
    ensures query.Obj? && !HasKey(query.props, "q") ==> r.Ok? && r.value.Str? && IsTrimmed(r.value.s)
    ensures query.Obj? && query.props == [] ==> r == Ok(Str(""))
  {
    if !IsObject(query) then Ok(query)
    else
      match In("q", query)
      case Throw(e) => Throw(e)
      case Ok(hasQ) =>
        if hasQ then Get(query, "q")
        else Ok(Str(Trim(PairsText(ForInEntries(query)))))
  }

  /** The pair texts joined by single spaces, plus the trailing space. */
  lemma {:induction false} PairsTextIsJoin(ps: Props)
    requires |ps| > 0
    ensures PairsText(ps) == Join(PairTexts(ps), " ") + " "
  {
    if |ps| > 1 {
      PairsTextIsJoin(ps[1..]);
      assert PairTexts(ps)[1..] == PairTexts(ps[1..]);
    }
  }

  lemma TrimDropsTrailingSpace(j: string)
    requires |j| > 0 && IsTrimmed(j)
    ensures Trim(j + " ") == j
  {
    assert TrimStart(j + " ") == j + " ";
    assert (j + " ")[..|j + " "| - 1] == j;
  }

  /** A pair text is non-empty (it holds the colon) and trimmed when its
      key does not start, and its value does not end, with white space. */
  predicate PairsTrimmed(ps: Props) {
    forall i :: 0 <= i < |ps| ==> IsTrimmed(PairText(ps[i]))
  }

  lemma JoinTrimmed(parts: seq<string>)
    requires |parts| > 0
    requires forall i :: 0 <= i < |parts| ==> |parts[i]| > 0 && IsTrimmed(parts[i])
    ensures |Join(parts, " ")| > 0 && IsTrimmed(Join(parts, " "))
    ensures Join(parts, " ")[0] == parts[0][0]
    decreases |parts|
  {
    if |parts| > 1 {
      JoinTrimmed(parts[1..]);
      var rest := Join(parts[1..], " ");
      assert Join(parts, " ") == parts[0] + " " + rest;
      assert (parts[0] + " " + rest)[|parts[0] + " " + rest| - 1] == rest[|rest| - 1];
    }
  }

  /** Without a `q` key the query is the pairs joined by single spaces,
      as long as no key starts and no value ends with white space. */
  lemma FormattedQueryJoinsPairs(ps: Props)
    requires !HasKey(ps, "q") && |ps| > 0
    requires PairsTrimmed(ps)
    ensures FormatSearchQuery(Obj(ps)) == Ok(Str(Join(PairTexts(ps), " ")))
  {
    PairsTextIsJoin(ps);
    var parts := PairTexts(ps);
    forall i | 0 <= i < |parts| ensures |parts[i]| > 0 && IsTrimmed(parts[i]) {
      assert parts[i] == PairText(ps[i]);
    }
    JoinTrimmed(parts);
    TrimDropsTrailingSpace(Join(parts, " "));
  }

  /** The worked case: `{a: "x", b: 1}` becomes `"a:x b:1"`. */
  lemma TwoPairQueryExample()
    ensures FormatSearchQuery(Obj([("a", Str("x")), ("b", Num(1))])) == Ok(Str("a:x b:1"))
  {
    var ps := [("a", Str("x")), ("b", Num(1))];
    assert Keys(ps) == ["a", "b"];
    assert ToJsString(Num(1)) == "1";
    assert PairText(ps[0]) == "a:x";
    assert PairText(ps[1]) == "b:1";
    assert PairTexts(ps) == ["a:x", "b:1"];
    assert Join(["a:x", "b:1"], " ") == "a:x b:1";
    FormattedQueryJoinsPairs(ps);
  }

  // ---------------------------------------------------------------
  // Option defaulting
  // ---------------------------------------------------------------

  /** `options`: the payload itself when it is of type object, else a
      fresh object. */
  function OptionsOf(payload: Value): (o: Value)
    ensures IsObject(payload) ==> o == payload
    ensures !IsObject(payload) ==> o == Obj([])
  {
    if IsObject(payload) then payload else Obj([])
  }

  /** `options.key = options.key || fallback`. */
  function Default(options: Value, key: string, fallback: Value): (r: Result<Value>)
    ensures options.Obj? ==> r == Ok(Obj(Put(options.props, key, Or(Field(options.props, key), fallback))))
    ensures options.Null? ==> r.Throw?
  {
    match Get(options, key)
    case Throw(e) => Throw(e)
    case Ok(current) => Assign(options, key, Or(current, fallback))
  }

  /** `options.query || options.q || formatSearchQuery(payload)`, reading
      left to right and stopping at the first truthy value. */
  function ChooseQuery(options: Value, payload: Value): (r: Result<Value>)
    ensures options.Obj? && Truthy(Field(options.props, "query")) ==> r == Ok(Field(options.props, "query"))
    ensures options.Obj? && !Truthy(Field(options.props, "query")) && Truthy(Field(options.props, "q"))
            ==> r == Ok(Field(options.props, "q"))
    ensures options.Obj? && !Truthy(Field(options.props, "query")) && !Truthy(Field(options.props, "q"))
            ==> r == FormatSearchQuery(payload)
    ensures options.Null? ==> r.Throw?
  {
    match Get(options, "query")
    case Throw(e) => Throw(e)
    case Ok(query) =>
      if Truthy(query) then Ok(query)
      else
        match Get(options, "q")
        case Throw(e) => Throw(e)
        case Ok(q) => if Truthy(q) then Ok(q) else FormatSearchQuery(payload)
  }

  /** The options after the query and `include_docs` are stored. */
  function WithDocs(ps: Props): Props
    requires ChooseQuery(Obj(ps), Obj(ps)).Ok?
  {
    var payload := Obj(ps);
    var withQuery := Put(ps, "query", ChooseQuery(payload, payload).value);
    Put(withQuery, "include_docs", Or(Field(withQuery, "include_docs"), Bool(true)))
  }

  /** `limit` defaulted to 200. */
  function WithLimit(ps: Props): Props {
    Put(ps, "limit", Or(Field(ps, "limit"), Num(200)))
  }

  /** The search options for the `_idx_` mode: the query chosen by
      precedence, then `include_docs` and `limit` defaulted, all stored
      onto the options object. */
  function SearchOptions(payload: Value): (r: Result<Value>)
    ensures payload.Null? ==> r.Throw?
    ensures !IsObject(payload) ==>
              r == Ok(Obj([("query", payload), ("include_docs", Bool(true)), ("limit", Num(200))]))
    ensures payload.Obj? ==>
              && r.Ok? && r.value.Obj?
              && ChooseQuery(payload, payload).Ok?
              && Lookup(r.value.props, "query") == Some(ChooseQuery(payload, payload).value)
              && Truthy(Field(r.value.props, "include_docs"))
              && Truthy(Field(r.value.props, "limit"))
              && (forall k :: k != "query" && k != "include_docs" && k != "limit"
                    ==> Lookup(r.value.props, k) == Lookup(payload.props, k))
    ensures payload.Obj? ==> r == Ok(Obj(WithLimit(WithDocs(payload.props))))
  {
    match payload
    case Obj(ps) => Ok(Obj(WithLimit(WithDocs(ps))))
    case Null => Throw(TypeError("Cannot read properties of null (reading 'query')"))
    case Arr(_) => Throw(Unmodelled("named property stored onto an array"))
    case Bytes(_) => Throw(Unmodelled("named property stored onto a Buffer"))
    case _ =>
      // `formatSearchQuery` hands a scalar back unchanged.
      Ok(Obj([("query", payload), ("include_docs", Bool(true)), ("limit", Num(200))]))
  }

  /** The defaulting as the handler spells it, one statement at a time. */
  function StepwiseSearchOptions(payload: Value): Result<Value> {
    var options := OptionsOf(payload);
    match ChooseQuery(options, payload)
    case Throw(e) => Throw(e)
    case Ok(query) =>
      match Assign(options, "query", query)
      case Throw(e) => Throw(e)
      case Ok(withQuery) =>
        match Default(withQuery, "include_docs", Bool(true))
        case Throw(e) => Throw(e)
        case Ok(withDocs) => Default(withDocs, "limit", Num(200))
  }

  lemma ScalarSearchOptions(payload: Value)
    requires !IsObject(payload)
    ensures StepwiseSearchOptions(payload)
            == Ok(Obj([("query", payload), ("include_docs", Bool(true)), ("limit", Num(200))]))
  {
    ScalarFirstStages(payload);
    ScalarLimitStage(payload);
  }

  lemma ScalarFirstStages(payload: Value)
    requires !IsObject(payload)
    ensures StepwiseSearchOptions(payload)
            == Default(Obj([("query", payload), ("include_docs", Bool(true))]), "limit", Num(200))
  {
    var one := [("query", payload)];
    assert OptionsOf(payload) == Obj([]);
    assert ChooseQuery(Obj([]), payload) == Ok(payload);
    assert Assign(Obj([]), "query", payload) == Ok(Obj(one));
    assert Keys(one) == ["query"];
    DefaultNewKey(one, "include_docs", Bool(true));
    assert one + [("include_docs", Bool(true))] == [("query", payload), ("include_docs", Bool(true))];
  }

  lemma ScalarLimitStage(payload: Value)
    ensures Default(Obj([("query", payload), ("include_docs", Bool(true))]), "limit", Num(200))
            == Ok(Obj([("query", payload), ("include_docs", Bool(true)), ("limit", Num(200))]))
  {
    var two := [("query", payload), ("include_docs", Bool(true))];
    assert Keys(two) == ["query", "include_docs"];
    DefaultNewKey(two, "limit", Num(200));
    assert two + [("limit", Num(200))] == [("query", payload), ("include_docs", Bool(true)), ("limit", Num(200))];
  }

  lemma DefaultNewKey(ps: Props, k: string, fallback: Value)
    requires !HasKey(ps, k)
    ensures Default(Obj(ps), k, fallback) == Ok(Obj(ps + [(k, fallback)]))
  {
    AppendNewKey(ps, k, fallback);
  }

  /** Storing a key an object lacks appends it. */
  lemma {:induction false} AppendNewKey(ps: Props, k: string, v: Value)
    requires !HasKey(ps, k)
    ensures Put(ps, k, v) == ps + [(k, v)]
    ensures Field(ps, k) == Undefined
  {
    if |ps| > 0 {
      KeysCons(ps);
      AppendNewKey(ps[1..], k, v);
      assert [ps[0]] + (ps[1..] + [(k, v)]) == ps + [(k, v)];
    }
  }

  lemma ObjectSearchOptions(ps: Props)
    ensures StepwiseSearchOptions(Obj(ps)) == SearchOptions(Obj(ps))
  {
    ObjectFirstStages(ps);
    ObjectLimitStage(ps);
  }

  lemma ObjectFirstStages(ps: Props)
    ensures StepwiseSearchOptions(Obj(ps)) == Default(Obj(WithDocs(ps)), "limit", Num(200))
  {
    var payload := Obj(ps);
    var query := ChooseQuery(payload, payload).value;
    var withQuery := Put(ps, "query", query);
    assert OptionsOf(payload) == payload;
    assert Assign(payload, "query", query) == Ok(Obj(withQuery));
    assert Default(Obj(withQuery), "include_docs", Bool(true)) == Ok(Obj(WithDocs(ps)));
  }

  lemma ObjectLimitStage(ps: Props)
    ensures Default(Obj(WithDocs(ps)), "limit", Num(200)) == SearchOptions(Obj(ps))
  {
  }

  /** The summary above is the handler's statement sequence: both
      succeed on the same payloads, with the same options. */
  lemma SearchOptionsStepwise(payload: Value)
    ensures SearchOptions(payload).Ok? <==> StepwiseSearchOptions(payload).Ok?
    ensures SearchOptions(payload).Ok? ==> SearchOptions(payload) == StepwiseSearchOptions(payload)
  {
    if !IsObject(payload) {
      ScalarSearchOptions(payload);
    } else if payload.Obj? {
      ObjectSearchOptions(payload.props);
    } else if !payload.Null? {
      assert ChooseQuery(payload, payload).Ok?;
    }
  }

  /** The list options for the `_all_` mode. */
  function ListOptions(payload: Value): (r: Result<Value>)
    ensures payload.Null? ==> r.Throw?
    ensures !IsObject(payload) ==> r == Ok(Obj([("include_docs", Bool(true))]))
    ensures payload.Obj? ==>
              && r.Ok? && r.value.Obj?
              && Truthy(Field(r.value.props, "include_docs"))
              && (forall k :: k != "include_docs" ==> Lookup(r.value.props, k) == Lookup(payload.props, k))
  {
    Default(OptionsOf(payload), "include_docs", Bool(true))
  }

  /** An explicit `include_docs: false` and a `limit` of 0 are replaced by
      the defaults; a truthy limit is kept. */
  lemma FalsyOptionsAreOverridden(ps: Props, n: int)
    requires Field(ps, "include_docs") == Bool(false)
    requires Field(ps, "limit") == Num(n)
    ensures SearchOptions(Obj(ps)).Ok?
    ensures var o := SearchOptions(Obj(ps)).value.props;
            && Field(o, "include_docs") == Bool(true)
            && Field(o, "limit") == (if n == 0 then Num(200) else Num(n))
  {
  }

  // ---------------------------------------------------------------
  // sendDocumentOnPayload
  // ---------------------------------------------------------------

  /** A design document's id: `_design/` occurs anywhere in it. */
  predicate IsDesignId(id: string) {
    Contains(id, "_design/")
  }

  /** One row through the `map` callback: its document when
      `doc._id.indexOf('_design/') < 0`, else nothing. Reading
      `el.doc._id` throws when the row or its document is missing, and
      `indexOf` is not a function on anything but strings (arrays and
      buffers have one of their own, which is not modelled). */
  function RowDoc(el: Value): Result<Option<Value>> {
    var doc :- Get(el, "doc");
    var id :- Get(doc, "_id");
    match id
    case Str(s) => Ok(if IsDesignId(s) then None else Some(doc))
    case Arr(_) => Throw(Unmodelled("indexOf on an array id"))
    case Bytes(_) => Throw(Unmodelled("indexOf on a Buffer id"))
    case _ => Throw(TypeError("doc._id.indexOf is not a function"))
  }

  /** A row holding a document whose id is a string keeps the document
      exactly when the id is not a design id. */
  lemma RowDocOfDocument(el: Value)
    requires el.Obj? && Field(el.props, "doc").Obj? && Field(Field(el.props, "doc").props, "_id").Str?
    ensures RowDoc(el) == Ok(if IsDesignId(Field(Field(el.props, "doc").props, "_id").s) then None
                             else Some(Field(el.props, "doc")))
  {
  }

  function OptionSeq(o: Option<Value>): seq<Value> {
    match o
    case Some(v) => [v]
    case None => []
  }

  /** The `map` then `filter` over the rows: the documents of the rows that
      are kept, in order. */
  function FilterRows(rows: seq<Value>): (r: Result<seq<Value>>)
    ensures r.Ok? ==> |r.value| <= |rows|
  {
    if |rows| == 0 then Ok([])
    else
      match RowDoc(rows[0])
      case Throw(e) => Throw(e)
      case Ok(kept) =>
        match FilterRows(rows[1..])
        case Throw(e) => Throw(e)
        case Ok(rest) => Ok(OptionSeq(kept) + rest)
  }

  /** Filtering distributes over concatenation, so with the singleton cases
      below it is the order-preserving sublist of kept documents. */
  lemma {:induction false} FilterRowsAppend(a: seq<Value>, b: seq<Value>)
    requires FilterRows(a).Ok? && FilterRows(b).Ok?
    ensures FilterRows(a + b) == Ok(FilterRows(a).value + FilterRows(b).value)
  {
    if |a| > 0 {
      assert FilterRows(a[1..]).Ok?;
      FilterRowsAppend(a[1..], b);
      FilterRowsAppendStep(a, b);
    } else {
      assert a + b == b;
      assert FilterRows(a).value + FilterRows(b).value == FilterRows(b).value;
    }
  }

  /** One step of the filter, read off its definition, for a row list
      whose first row and remaining rows are given separately. */
  lemma FilterRowsCons(rows: seq<Value>, first: Value, rest: seq<Value>)
    requires |rows| > 0 && rows[0] == first && rows[1..] == rest
    ensures FilterRows(rows).Ok? <==> RowDoc(first).Ok? && FilterRows(rest).Ok?
    ensures FilterRows(rows).Ok? ==>
              FilterRows(rows).value == OptionSeq(RowDoc(first).value) + FilterRows(rest).value
  {
  }

  lemma FilterRowsAppendStep(a: seq<Value>, b: seq<Value>)
    requires |a| > 0 && FilterRows(a).Ok? && FilterRows(b).Ok? && FilterRows(a[1..]).Ok?
    requires FilterRows(a[1..] + b) == Ok(FilterRows(a[1..]).value + FilterRows(b).value)
    ensures FilterRows(a + b) == Ok(FilterRows(a).value + FilterRows(b).value)
  {
    TailOfAppend(a, b);
    FilterRowsCons(a, a[0], a[1..]);
    FilterRowsCons(a + b, a[0], a[1..] + b);
    AppendAssoc(OptionSeq(RowDoc(a[0]).value), FilterRows(a[1..]).value, FilterRows(b).value);
  }

  lemma TailOfAppend(a: seq<Value>, b: seq<Value>)
    requires |a| > 0
    ensures (a + b)[0] == a[0] && (a + b)[1..] == a[1..] + b
  {
  }

  lemma AppendAssoc(x: seq<Value>, y: seq<Value>, z: seq<Value>)
    ensures x + (y + z) == (x + y) + z
  {
  }

  /** Reshaping fails exactly when some row's document or id cannot be
      read, or the id is not a string. */
  lemma {:induction false} FilterRowsOkIff(rows: seq<Value>)
    ensures FilterRows(rows).Ok? <==> forall i :: 0 <= i < |rows| ==> RowDoc(rows[i]).Ok?
  {
    if |rows| > 0 {
      FilterRowsOkIff(rows[1..]);
      assert forall i :: 1 <= i < |rows| ==> rows[i] == rows[1..][i - 1];
    }
  }

  /** One row: its document is kept exactly when its id does not contain
      `_design/` anywhere. */
  lemma FilterOneRow(doc: Props, id: string)
    requires Field(doc, "_id") == Str(id)
    ensures var row := Obj([("doc", Obj(doc))]);
            FilterRows([row]) == Ok(if IsDesignId(id) then [] else [Obj(doc)])
  {
    var row := Obj([("doc", Obj(doc))]);
    assert Keys([("doc", Obj(doc))]) == ["doc"];
    assert Get(row, "doc") == Ok(Obj(doc));
    assert RowDoc(row) == Ok(if IsDesignId(id) then None else Some(Obj(doc)));
    assert [row][1..] == [];
    assert FilterRows([row][1..]) == Ok([]);
    assert [Obj(doc)] + [] == [Obj(doc)];
  }

  /** The test is a substring test: an id with `_design/` in the middle is
      dropped just like a design document. */
  lemma SubstringNotPrefix()
    ensures IsDesignId("x/_design/y")
    ensures !IsDesignId("plain")
  {
    assert OccursAt("x/_design/y", "_design/", 2);
  }

  /** The body that reaches the callback becomes the payload: the
      filtered rows when the body has a `rows` key, else the body itself. */
  function ResultPayload(body: Value): (r: Result<Value>)
    ensures body.Obj? && !HasKey(body.props, "rows") ==> r == Ok(body)
    ensures body.Obj? && Field(body.props, "rows").Arr? && FilterRows(Field(body.props, "rows").elems).Ok?
            ==> r == Ok(Arr(FilterRows(Field(body.props, "rows").elems).value))
    ensures !IsObject(body) || body.Null? ==> r.Throw?
  {
    match In("rows", body)
    case Throw(e) => Throw(e)
    case Ok(hasRows) =>
      if !hasRows then Ok(body)
      else
        match Get(body, "rows").value
        case Arr(rows) =>
          var kept :- FilterRows(rows);
          Ok(Arr(kept))
        case Bytes(_) => Throw(Unmodelled("map over a Buffer"))
        case _ => Throw(TypeError("body.rows.map is not a function"))
  }

  /** The settings and state of a `cloudant in` node. `inputId` is the id
      of the last `_id_` lookup; it survives across messages. */
  datatype QueryNode = QueryNode(search: Value, design: Value, index: Value, database: string, inputId: Value)

  function NotFoundText(node: QueryNode): string {
    "Document \"" + ToJsString(node.inputId) + "\" not found in database \"" + node.database + "\"."
  }

  /** `sendDocumentOnPayload(err, body, node, msg)`. */
  function SendDocumentOnPayload(node: QueryNode, msg: Props, reply: DbReply): (effects: seq<Effect>)
    ensures reply.Failed? ==>
              effects == [if IsError(reply.err, "not_found") then LogWarn(NotFoundText(node))
                          else LogError(Describe("Failed to retrieve documents: ", reply.err)),
                          Send(Obj(Put(msg, "payload", Null)))]
    ensures reply.Done? && ResultPayload(reply.body).Ok? ==>
              var p := ResultPayload(reply.body).value;
              var sent := Put(Put(msg, "payload", p), "cloudant", p);
              effects == [Send(Obj(sent))] && Field(sent, "payload") == Field(sent, "cloudant")
    ensures |effects| >= 1
  {
    match reply
    case Failed(e) =>
      var report := if IsError(e, "not_found") then LogWarn(NotFoundText(node))
                    else LogError(Describe("Failed to retrieve documents: ", e));
      [report, Send(Obj(Put(msg, "payload", Null)))]
    case Done(body) =>
      match ResultPayload(body)
      case Throw(e) => [Crash(e)]
      case Ok(p) => [Send(Obj(Put(Put(msg, "payload", p), "cloudant", p)))]
  }

  // ---------------------------------------------------------------
  // The node
  // ---------------------------------------------------------------

  /** The editor settings of a `cloudant in` node. */
  datatype QueryConfig = QueryConfig(
    search: Value,
    design: Value,
    index: Value,
    database: string,
    service: string,
    cloudant: Value)

  function NewQueryNode(config: QueryConfig): (n: QueryNode)
    ensures n.inputId == Str("")
    ensures n.database == Utils.CleanDatabaseName(config.database).name
    ensures n.search == config.search
  {
    QueryNode(config.search, config.design, config.index,
              Utils.CleanDatabaseName(config.database).name, Str(""))
  }

  /** The constructor's observable work. Unlike the output node, this one
      looks up its configuration before it cleans the database name, so a
      missing service binding throws before any rename warning. */
  function Startup(config: QueryConfig,
                   getNode: Value -> Option<Configuration.ConfigNode>,
                   getService: string -> Value,
                   connectError: Option<DbError>): (out: Outcome)
    ensures out.calls == []
    ensures var c := Utils.GetCloudantConfig(config.service, config.cloudant, getNode, getService);
            c.Throw? ==> out == Outcome([], [Crash(c.error)])
    ensures var c := Utils.GetCloudantConfig(config.service, config.cloudant, getNode, getService);
            var w := Utils.CleanDatabaseName(config.database).warning;
            var warned := if w.Some? then [LogWarn(w.value)] else [];
            c.Ok? ==>
              out.effects == warned + (match Utils.ClientCredentials(c.value)
                                       case Throw(e) => [Crash(e)]
                                       case Ok(_) =>
                                         if connectError.Some? then [LogError(ToJsString(connectError.value.description))]
                                         else [])
  {
    match Utils.GetCloudantConfig(config.service, config.cloudant, getNode, getService)
    case Throw(e) => Outcome([], [Crash(e)])
    case Ok(cfg) =>
      var warned := match Utils.CleanDatabaseName(config.database).warning
                    case Some(w) => [LogWarn(w)]
                    case None => [];
      match Utils.ClientCredentials(cfg)
      case Throw(e) => Outcome([], warned + [Crash(e)])
      case Ok(_) =>
        match connectError
        case Some(e) => Outcome([], warned + [LogError(ToJsString(e.description))])
        case None => Outcome([], warned)
  }

  /** The node starts silently exactly when its configuration, its
      credentials and its connection all succeed and its database name
      needs no change. */
  lemma StartupSilentIff(config: QueryConfig,
                         getNode: Value -> Option<Configuration.ConfigNode>,
                         getService: string -> Value,
                         connectError: Option<DbError>)
    ensures var c := Utils.GetCloudantConfig(config.service, config.cloudant, getNode, getService);
            Startup(config, getNode, getService, connectError).effects == []
            <==> c.Ok? && Utils.ClientCredentials(c.value).Ok? && connectError.None?
                 && Utils.CleanDatabaseName(config.database).warning.None?
  {
  }

  /** What the node does after the reply (if it has arrived). */
  function Respond(node: QueryNode, msg: Props, reply: Option<DbReply>): seq<Effect> {
    match reply
    case Some(r) => SendDocumentOnPayload(node, msg, r)
    case None => []
  }

  /** The input handler: mode dispatch, the request, and the response to
      its reply. Returns the node with its updated `inputId`. */
  function OnInput(node: QueryNode, msg: Props, reply: Option<DbReply>): (r: (QueryNode, Outcome))
    ensures node.search != Str("_id_") ==> r.0 == node
    ensures node.search != Str("_id_") && node.search != Str("_idx_") && node.search != Str("_all_")
            ==> r.1 == Outcome([], [])
    ensures node.search == Str("_id_") && Utils.GetDocumentId(Obj(msg), None).Ok? ==>
              var id := Utils.GetDocumentId(Obj(msg), None).value;
              r.0 == node.(inputId := id) && r.1.calls == [GetDoc(id)]
    ensures node.search == Str("_idx_") && SearchOptions(Field(msg, "payload")).Ok? ==>
              r.1.calls == [Search(node.design, node.index, SearchOptions(Field(msg, "payload")).value)]
    ensures node.search == Str("_all_") && ListOptions(Field(msg, "payload")).Ok? ==>
              r.1.calls == [ListDocs(ListOptions(Field(msg, "payload")).value)]
    ensures |r.1.calls| <= 1
    ensures r.1.calls != [] && reply.Some? ==> r.1.effects == SendDocumentOnPayload(r.0, msg, reply.value)
    ensures reply.None? ==> forall e :: e in r.1.effects ==> e.Crash?
  {
    var payload := Field(msg, "payload");
    if node.search == Str("_id_") then
      match Utils.GetDocumentId(Obj(msg), None)
      case Throw(e) => (node, Outcome([], [Crash(e)]))
      case Ok(id) =>
        var node' := node.(inputId := id);
        (node', Outcome([GetDoc(id)], Respond(node', msg, reply)))
    else if node.search == Str("_idx_") then
      match SearchOptions(payload)
      case Throw(e) => (node, Outcome([], [Crash(e)]))
      case Ok(options) => (node, Outcome([Search(node.design, node.index, options)], Respond(node, msg, reply)))
    else if node.search == Str("_all_") then
      match ListOptions(payload)
      case Throw(e) => (node, Outcome([], [Crash(e)]))
      case Ok(options) => (node, Outcome([ListDocs(options)], Respond(node, msg, reply)))
    else (node, Outcome([], []))
  }

  /** Every reply is answered with exactly one send, errors included,
      unless reshaping the body throws. */
  lemma EveryReplyIsAnswered(node: QueryNode, msg: Props, reply: DbReply)
    requires reply.Failed? || ResultPayload(reply.body).Ok?
    ensures SendCount(SendDocumentOnPayload(node, msg, reply)) == 1
  {
    var effects := SendDocumentOnPayload(node, msg, reply);
    if reply.Failed? {
      assert effects[1..][1..] == [];
    } else {
      assert effects[1..] == [];
    }
  }

  /** In `_id_` mode the not-found warning names the id just looked up. */
  lemma IdNotFoundNamesLookedUpId(node: QueryNode, msg: Props, e: DbError)
    requires node.search == Str("_id_")
    requires Utils.GetDocumentId(Obj(msg), None).Ok?
    requires IsError(e, "not_found")
    ensures var id := Utils.GetDocumentId(Obj(msg), None).value;
            var out := OnInput(node, msg, Some(Failed(e)));
            |out.1.effects| == 2
            && out.1.effects[0] == LogWarn("Document \"" + ToJsString(id) + "\" not found in database \""
                                           + node.database + "\".")
  {
  }

  /** A search or list node never records an id (its mode is fixed by its
      settings), so its not-found warning names the empty id it started
      with. */
  lemma SearchNotFoundNamesEmptyId(config: QueryConfig, msg: Props, e: DbError)
    requires config.search == Str("_idx_") || config.search == Str("_all_")
    requires IsError(e, "not_found")
    ensures var node := NewQueryNode(config);
            var out := OnInput(node, msg, Some(Failed(e)));
            && out.0 == node
            && (out.1.calls != [] ==>
                  |out.1.effects| == 2
                  && out.1.effects[0] == LogWarn("Document \"\" not found in database \"" + node.database + "\"."))
  {
    var node := NewQueryNode(config);
    SearchModesRespond(node, msg, Failed(e));
    EmptyIdWarning(node, msg, e);
  }

  /** A search or list request is answered by the response to its reply. */
  lemma SearchModesRespond(node: QueryNode, msg: Props, reply: DbReply)
    requires node.search == Str("_idx_") || node.search == Str("_all_")
    ensures var out := OnInput(node, msg, Some(reply)).1;
            out.calls != [] ==> out.effects == SendDocumentOnPayload(node, msg, reply)
  {
    if node.search == Str("_idx_") {
      var o := SearchOptions(Field(msg, "payload"));
      if o.Ok? {
        assert OnInput(node, msg, Some(reply)).1
               == Outcome([Search(node.design, node.index, o.value)], SendDocumentOnPayload(node, msg, reply));
      }
    }
  }

  /** With no id recorded, a not-found reply warns about the empty id. */
  lemma EmptyIdWarning(node: QueryNode, msg: Props, e: DbError)
    requires node.inputId == Str("") && IsError(e, "not_found")
    ensures var effects := SendDocumentOnPayload(node, msg, Failed(e));
            |effects| == 2
            && effects[0] == LogWarn("Document \"\" not found in database \"" + node.database + "\".")
  {
    assert NotFoundText(node) == "Document \"\" not found in database \"" + node.database + "\".";
  }
}
