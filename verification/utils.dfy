/** The helpers every node shares (cloudant-cf/utils.js): the database
    name sanitiser, the special-field sanitiser, property and document-id
    lookup, and the choice between a configuration node and a platform
    service binding. */
module Utils {
  import opened Text
  import opened Values
  import Configuration

  // ---------------------------------------------------------------
  // cleanDatabaseName
  // ---------------------------------------------------------------

  /** The class `[\s\\/]`. */
  predicate IsNameSep(c: char) {
    IsSpace(c) || c == '/' || c == '\\'
  }

  predicate NoSep(s: string) {
    forall i :: 0 <= i < |s| ==> !IsNameSep(s[i])
  }

  predicate AllSep(s: string) {
    forall i :: 0 <= i < |s| ==> IsNameSep(s[i])
  }

  /** The suffix left after a leading run of separators. */
  function DropSeps(s: string): (r: string)
    ensures |r| <= |s| && r == s[|s| - |r|..]
    ensures |r| == 0 || !IsNameSep(r[0])
    ensures AllSep(s[..|s| - |r|])
  {
    if |s| > 0 && IsNameSep(s[0]) then
      var r := DropSeps(s[1..]);
      assert s[..|s| - |r|] == [s[0]] + s[1..][..|s[1..]| - |r|];
      r
    else s
  }

  /** `s.replace(/[\s\\/]+/g, '-')`. */
  function CollapseRuns(s: string): (r: string)
    ensures NoSep(r)
    ensures NoUpper(s) ==> NoUpper(r)
    ensures |s| > 0 ==> |r| > 0 && r[0] == (if IsNameSep(s[0]) then '-' else s[0])
    decreases |s|
  {
    if |s| == 0 then ""
    else if IsNameSep(s[0]) then
      "-" + CollapseRuns(DropSeps(s))
    else
      [s[0]] + CollapseRuns(s[1..])
  }

  /** `s.replace(/^_/, '')`: at most one underscore, at the start. */
  function StripUnderscore(s: string): (r: string)
    ensures |s| > 0 && s[0] == '_' ==> r == s[1..]
    ensures !(|s| > 0 && s[0] == '_') ==> r == s
  {
    if |s| > 0 && s[0] == '_' then s[1..] else s
  }

  /** A cleaned name, and the warning the node emits when it changed. */
  datatype Renamed = Renamed(name: string, warning: Option<string>)

  predicate StartsWithTwoUnderscores(s: string) {
    |s| >= 2 && s[0] == '_' && s[1] == '_'
  }

  /** `cleanDatabaseName`: lower-case, drop one leading underscore, and
      turn each run of white space and slashes into one hyphen. */
  function CleanDatabaseName(database: string): (r: Renamed)
    ensures NoUpper(r.name) && NoSep(r.name)
    ensures (|r.name| > 0 && r.name[0] == '_') <==> StartsWithTwoUnderscores(database)
    ensures r.warning.Some? <==> r.name != database
    ensures r.warning.Some? ==> r.warning.value == "Database renamed  as '" + r.name + "'."
  {
    var lowered := Lower(database);
    var stripped := StripUnderscore(lowered);
    var name := CollapseRuns(stripped);
    Renamed(name, if name != database then Some("Database renamed  as '" + name + "'.") else None)
  }

  lemma {:induction false} NoSepCollapse(s: string)
    requires NoSep(s)
    ensures CollapseRuns(s) == s
  {
    if |s| > 0 {
      NoSepCollapse(s[1..]);
    }
  }

  lemma {:induction false} DropSepsOfRun(run: string, y: string)
    requires AllSep(run)
    requires |y| == 0 || !IsNameSep(y[0])
    ensures DropSeps(run + y) == y
  {
    if |run| > 0 {
      assert (run + y)[1..] == run[1..] + y;
      DropSepsOfRun(run[1..], y);
    } else {
      assert run + y == y;
    }
  }

  lemma {:induction false} DropSepsAppend(x: string, z: string)
    requires |x| > 0 && !IsNameSep(x[|x| - 1])
    ensures DropSeps(x + z) == DropSeps(x) + z
  {
    if IsNameSep(x[0]) {
      assert (x + z)[1..] == x[1..] + z;
      DropSepsAppend(x[1..], z);
    }
  }

  /** One step of the collapse, read off its definition. */
  lemma CollapseStep(s: string)
    requires |s| > 0
    ensures IsNameSep(s[0]) ==> CollapseRuns(s) == "-" + CollapseRuns(DropSeps(s))
    ensures !IsNameSep(s[0]) ==> CollapseRuns(s) == [s[0]] + CollapseRuns(s[1..])
  {
  }

  /** Dropping leading separators keeps a last character that is not one. */
  lemma DropSepsKeepsLast(x: string)
    requires |x| > 0 && !IsNameSep(x[|x| - 1])
    ensures |DropSeps(x)| > 0 && DropSeps(x)[|DropSeps(x)| - 1] == x[|x| - 1]
  {
  }

  lemma Assoc(a: string, b: string, c: string)
    ensures a + b + c == a + (b + c)
  {
  }

  lemma JoinAround(c: string, a: string, b: string)
    ensures c + (a + "-" + b) == (c + a) + "-" + b
  {
  }

  predicate CollapseSplits(x: string, run: string, y: string) {
    CollapseRuns(x + run + y) == CollapseRuns(x) + "-" + CollapseRuns(y)
  }

  /** Each maximal run of separators becomes exactly one hyphen: cutting a
      name at a maximal run and collapsing the pieces gives the collapse
      of the whole. */
  lemma {:induction false} MaximalRunBecomesOneHyphen(x: string, run: string, y: string)
    requires |run| > 0 && AllSep(run)
    requires |x| == 0 || !IsNameSep(x[|x| - 1])
    requires |y| == 0 || !IsNameSep(y[0])
    ensures CollapseRuns(x + run + y) == CollapseRuns(x) + "-" + CollapseRuns(y)
    decreases |x|
  {
    if |x| == 0 {
      assert x + run + y == run + y;
      DropSepsOfRun(run, y);
      CollapseStep(run + y);
    } else if !IsNameSep(x[0]) {
      MaximalRunBecomesOneHyphen(x[1..], run, y);
      SplitAfterOrdinaryChar(x, run, y);
    } else {
      DropSepsKeepsLast(x);
      MaximalRunBecomesOneHyphen(DropSeps(x), run, y);
      SplitAfterLeadingRun(x, run, y);
    }
  }

  lemma SplitAfterOrdinaryChar(x: string, run: string, y: string)
    requires |x| > 0 && !IsNameSep(x[0])
    requires CollapseSplits(x[1..], run, y)
    ensures CollapseSplits(x, run, y)
  {
    var s := x + run + y;
    assert s[1..] == x[1..] + run + y;
    CollapseStep(s);
    CollapseStep(x);
    JoinAround([x[0]], CollapseRuns(x[1..]), CollapseRuns(y));
  }

  lemma SplitAfterLeadingRun(x: string, run: string, y: string)
    requires |x| > 0 && IsNameSep(x[0]) && !IsNameSep(x[|x| - 1])
    requires CollapseSplits(DropSeps(x), run, y)
    ensures CollapseSplits(x, run, y)
  {
    var s := x + run + y;
    var d := DropSeps(x);
    Assoc(x, run, y);
    DropSepsAppend(x, run + y);
    Assoc(d, run, y);
    CollapseStep(s);
    CollapseStep(x);
    JoinAround("-", CollapseRuns(d), CollapseRuns(y));
  }

  lemma NoUpperLowerIdentity(s: string)
    requires NoUpper(s)
    ensures Lower(s) == s
  {
  }

  /** The sanitiser is idempotent exactly on names that do not start with
      two underscores: on those, the second pass strips the underscore the
      first pass left behind. */
  lemma {:induction false} CleanDatabaseNameIdempotentIff(database: string)
    ensures CleanDatabaseName(CleanDatabaseName(database).name).name == CleanDatabaseName(database).name
            <==> !StartsWithTwoUnderscores(database)
  {
    var c := CleanDatabaseName(database).name;
    NoUpperLowerIdentity(c);
    if |c| > 0 && c[0] == '_' {
      assert NoSep(c[1..]);
      NoSepCollapse(c[1..]);
      assert |CleanDatabaseName(c).name| == |c| - 1;
    } else {
      NoSepCollapse(c);
    }
  }

  /** The worked case: two passes over `"__a"` give `"_a"` then `"a"`. */
  lemma DoubleUnderscoreExample()
    ensures CleanDatabaseName("__a").name == "_a"
    ensures CleanDatabaseName("_a").name == "a"
  {
    assert Lower("__a") == "__a";
    assert Lower("_a") == "_a";
    NoSepCollapse("_a");
    NoSepCollapse("a");
  }

  // ---------------------------------------------------------------
  // cleanMessage
  // ---------------------------------------------------------------

  /** The special fields a document may carry. */
  const AllowedWords: seq<string> := [
    "_id", "_rev", "_attachments", "_deleted", "_revisions",
    "_revs_info", "_conflicts", "_deleted_conflicts", "_local_seq"
  ]

  /** `isFieldNameValid`: `key[0] !== '_'` holds of the empty key too. */
  predicate IsFieldNameValid(key: string) {
    |key| == 0 || key[0] != '_' || key in AllowedWords
  }

  predicate AllFieldNamesValid(ps: Props) {
    forall i :: 0 <= i < |ps| ==> IsFieldNameValid(ps[i].0)
  }

  /** Position of the first invalid key in enumeration order. */
  function FirstInvalid(ps: Props): (i: nat)
    ensures i <= |ps|
    ensures forall k :: 0 <= k < i ==> IsFieldNameValid(ps[k].0)
    ensures i < |ps| ==> !IsFieldNameValid(ps[i].0)
  {
    if |ps| == 0 then 0
    else if !IsFieldNameValid(ps[0].0) then 0
    else 1 + FirstInvalid(ps[1..])
  }

  /** `s.substring(start, end)`: both ends clamped to the string, swapped
      when they are out of order. */
  function Substring(s: string, start: int, end: int): (r: string)
    ensures 0 <= start <= end <= |s| ==> r == s[start..end]
  {
    var a := if start < 0 then 0 else if start > |s| then |s| else start;
    var b := if end < 0 then 0 else if end > |s| then |s| else end;
    if a <= b then s[a..b] else s[b..a]
  }

  /** The end argument `msg.length` passes to `substring`, for a key of
      length `keyLength`: normally `undefined`, which means "to the end".
      Any other value goes through `Number` and is truncated; a string,
      an array or an object is read from its text (an object's text is
      `[object Object]`, which reads as 0), and the infinities stand for
      the ends of the key. */
  function LengthArgument(msg: Props, keyLength: nat): int {
    match Field(msg, "length")
    case Undefined => keyLength
    case Num(n) => n
    case Bool(b) => if b then 1 else 0
    case Null => 0
    case other =>
      match TextToInteger(ToJsString(other))
      case Finite(n) => n
      case PlusInfinity => keyLength
      case MinusInfinity => 0
  }

  /** The key the sanitiser moves an invalid field to. */
  function RenamedKey(msg: Props, key: string): string {
    Substring(key, 1, LengthArgument(msg, |key|))
  }

  /** The object as it stands when the first rename has been done and the
      warning call raises: the value moved to the new key, the old key
      deleted. */
  function RenameFirstInvalid(ps: Props): (r: Props)
    requires FirstInvalid(ps) < |ps|
    ensures var key := ps[FirstInvalid(ps)].0;
            var newKey := RenamedKey(ps, key);
            && Lookup(r, key) == None
            && (newKey != key ==> Lookup(r, newKey) == Some(Field(ps, key)))
            && (forall k :: k != key && k != newKey ==> Lookup(r, k) == Lookup(ps, k))
  {
    var key := ps[FirstInvalid(ps)].0;
    var newKey := RenamedKey(ps, key);
    Remove(Put(ps, newKey, Field(ps, key)), key)
  }

  /** Without a `length` field the new key is the old one minus its first
      character. */
  lemma RenameDropsFirstCharacter(ps: Props, key: string)
    requires !HasKey(ps, "length")
    requires |key| > 0
    ensures RenamedKey(ps, key) == key[1..]
  {
  }

  /** A `length` value other than `undefined`, a number, a boolean or
      `null` cuts where its text reads. */
  lemma LengthFromText(ps: Props, keyLength: nat, n: int)
    requires var v := Field(ps, "length");
             !v.Undefined? && !v.Num? && !v.Bool? && !v.Null? && TextToInteger(ToJsString(v)) == Finite(n)
    ensures LengthArgument(ps, keyLength) == n
  {
  }

  /** A one-element array of a number prints as that number. */
  lemma SingletonArrayText(n: int)
    ensures ToJsString(Arr([Num(n)])) == IntToString(n)
  {
    var parts := seq(1, i requires 0 <= i < 1 => if [Num(n)][i].Undefined? || [Num(n)][i].Null? then "" else ToJsString([Num(n)][i]));
    assert parts == [IntToString(n)];
  }

  /** A `length` field holding a number's text, or a one-element array of
      that number, cuts the new key where the number itself would. */
  lemma NumericLengthText(ps: Props, key: string, n: int)
    ensures Field(ps, "length") == Str(IntToString(n)) ==> RenamedKey(ps, key) == Substring(key, 1, n)
    ensures Field(ps, "length") == Arr([Num(n)]) ==> RenamedKey(ps, key) == Substring(key, 1, n)
  {
    IntegerTextRoundTrip(n);
    if Field(ps, "length") == Str(IntToString(n)) {
      LengthFromText(ps, |key|, n);
    } else if Field(ps, "length") == Arr([Num(n)]) {
      SingletonArrayText(n);
      LengthFromText(ps, |key|, n);
    }
  }

  /** `{_x: 1, length: "3"}` renames `_x` to `x`, as `"3"` converts to 3. */
  lemma LengthTextExample()
    ensures RenamedKey([("_x", Num(1)), ("length", Str("3"))], "_x") == "x"
  {
    var ps: Props := [("_x", Num(1)), ("length", Str("3"))];
    assert Field(ps, "length") == Str("3");
    assert IntToString(3) == "3";
    NumericLengthText(ps, "_x", 3);
    assert Substring("_x", 1, 3) == "x";
  }

  /** `cleanMessage`. A message whose keys are all valid comes back as it
      is; otherwise the first rename is followed by a call on `node`, which
      is not in scope there, so a ReferenceError escapes. Anything other
      than a plain object enumerates only index keys, which are valid. */
  function CleanMessage(msg: Value): (r: Result<Value>)
    ensures r.Ok? <==> !msg.Obj? || AllFieldNamesValid(msg.props)
    ensures r.Ok? ==> r.value == msg
    ensures r.Throw? ==> r.error == ReferenceError("node")
  {
    match msg
    case Obj(ps) =>
      if FirstInvalid(ps) == |ps| then Ok(msg) else Throw(ReferenceError("node"))
    case _ => Ok(msg)
  }

  // ---------------------------------------------------------------
  // getProperty / getDocumentId
  // ---------------------------------------------------------------

  /** The own properties of the node object, when there is one. */
  type NodeProps = Option<Props>

  /** Where `getProperty` found its answer. */
  predicate FromNode(prop: string, node: NodeProps) {
    && node.Some? && prop != "id"
    && HasKey(node.value, prop) && Truthy(Field(node.value, prop))
  }

  /** `typeof p === 'object' && prop in p ? p[prop] : null` for the
      payload; `in` throws on a null payload. */
  function FromPayload(prop: string, p: Value): (r: Result<Value>)
    ensures p.Obj? ==> r == Ok(if HasKey(p.props, prop) then Field(p.props, prop) else Null)
    ensures r.Throw? <==> p.Null?
  {
    if IsObject(p) then
      match In(prop, p)
      case Throw(e) => Throw(e)
      case Ok(b) => if b then Get(p, prop) else Ok(Null)
    else Ok(Null)
  }

  /** `getProperty(prop, msg, node)`: a truthy own property of the node
      (never for `id`), else `msg[prop]` when the key is there at all,
      else `msg.payload[prop]` when the payload is an object holding it,
      else null. `in` on a null payload, or a null message, throws. */
  function GetProperty(prop: string, msg: Value, node: NodeProps): (r: Result<Value>)
    ensures FromNode(prop, node) ==> r == Ok(Field(node.value, prop))
    ensures !FromNode(prop, node) && msg.Obj? && HasKey(msg.props, prop) ==> r == Ok(Field(msg.props, prop))
    ensures !FromNode(prop, node) && msg.Obj? && !HasKey(msg.props, prop) && HasKey(msg.props, "payload")
            ==> r == FromPayload(prop, Field(msg.props, "payload"))
    ensures !FromNode(prop, node) && !IsObject(msg) ==> r == Ok(Null)
    ensures !FromNode(prop, node) && msg.Obj? && !HasKey(msg.props, prop) && !HasKey(msg.props, "payload") ==> r == Ok(Null)
    ensures r.Throw? ==> !FromNode(prop, node) && (msg.Null? || (msg.Obj? && Field(msg.props, "payload") == Null))
  {
    if FromNode(prop, node) then
      Ok(Field(node.value, prop))
    else
      match msg
      case Null => Throw(TypeError("Cannot use 'in' operator to search for '" + prop + "' in null"))
      case Obj(ps) =>
        if HasKey(ps, prop) then Ok(Field(ps, prop))
        else if HasKey(ps, "payload") then FromPayload(prop, Field(ps, "payload"))
        else Ok(Null)
      case Arr(_) =>
        // An array has no `payload` key, so only `prop in msg` matters.
        if In(prop, msg).value then Get(msg, prop) else Ok(Null)
      case Bytes(_) =>
        if In(prop, msg).value then Get(msg, prop) else Ok(Null)
      case _ => Ok(Null)
  }

  /** A present key of the message wins over the payload even when its
      value is falsy; only a truthy node property comes before it. */
  lemma MessageShadowsPayload(prop: string, ps: Props, node: NodeProps)
    requires HasKey(ps, prop) && !Truthy(Field(ps, prop))
    requires node.None? || prop == "id"
    ensures GetProperty(prop, Obj(ps), node) == Ok(Field(ps, prop))
  {
  }

  /** The payload is consulted only when the message lacks the key, and a
      `null` payload then makes `in` throw. */
  lemma NullPayloadThrows(prop: string, ps: Props)
    requires !HasKey(ps, prop) && prop != "payload"
    requires Field(ps, "payload") == Null && HasKey(ps, "payload")
    ensures GetProperty(prop, Obj(ps), None).Throw?
  {
  }

  /** `getDocumentId`: the first truthy of `_id` and `id`, else whatever
      `msg.payload` is. */
  function GetDocumentId(msg: Value, node: NodeProps): (r: Result<Value>)
    ensures r.Ok? && GetProperty("_id", msg, node).Ok? && Truthy(GetProperty("_id", msg, node).value)
            ==> r.value == GetProperty("_id", msg, node).value
    ensures var a := GetProperty("_id", msg, node);
            var b := GetProperty("id", msg, node);
            a.Ok? && !Truthy(a.value) && b.Ok? && Truthy(b.value) ==> r == Ok(b.value)
    ensures var a := GetProperty("_id", msg, node);
            var b := GetProperty("id", msg, node);
            msg.Obj? && a.Ok? && !Truthy(a.value) && b.Ok? && !Truthy(b.value)
            ==> r == Ok(Field(msg.props, "payload"))
    ensures r.Throw? ==> msg.Null? || msg.Undefined? || GetProperty("_id", msg, node).Throw?
                         || GetProperty("id", msg, node).Throw?
  {
    var byUnderscoreId :- GetProperty("_id", msg, node);
    if Truthy(byUnderscoreId) then Ok(byUnderscoreId)
    else
      var byId :- GetProperty("id", msg, node);
      if Truthy(byId) then Ok(byId)
      else Get(msg, "payload")
  }

  /** Falsy ids fall through: a message whose `_id` is `""` and whose
      `id` is `0` is identified by its payload. */
  lemma FalsyIdsFallThrough(p: Value)
    ensures GetDocumentId(Obj([("_id", Str("")), ("id", Num(0)), ("payload", p)]), None) == Ok(p)
  {
    var ps := [("_id", Str("")), ("id", Num(0)), ("payload", p)];
    assert HasKey(ps, "_id") && HasKey(ps, "id") && HasKey(ps, "payload") by {
      assert Keys(ps) == ["_id", "id", "payload"];
    }
  }

  /** The id is never taken from the node's own `id` property, which
      every Node-RED node has. */
  lemma NodeIdIgnored(nodeProps: Props, ps: Props)
    requires !HasKey(ps, "_id") && !HasKey(ps, "id") && !HasKey(ps, "payload")
    requires !HasKey(nodeProps, "_id")
    ensures GetDocumentId(Obj(ps), Some(nodeProps)) == Ok(Undefined)
  {
  }

  // ---------------------------------------------------------------
  // getCloudantConfig
  // ---------------------------------------------------------------

  /** What `getCloudantConfig` returns: the referenced configuration node
      (possibly missing), the credentials of a bound platform service, or
      `undefined` when no service is selected. */
  datatype CloudantConfig =
    | ExternalNode(node: Option<Configuration.ConfigNode>)
    | ServiceBinding(username: Value, password: Value, account: string)
    | NoService

  /** `host.substring(0, host.indexOf('.'))`: the part before the first
      dot, or the empty string when there is no dot (`indexOf` gives -1). */
  function AccountFromHost(host: string): (r: string)
    ensures '.' !in r
    ensures '.' in host ==> |r| < |host| && host[..|r| + 1] == r + "."
    ensures '.' !in host ==> r == ""
  {
    if |host| == 0 then ""
    else if host[0] == '.' then ""
    else if '.' in host[1..] then
      assert host == [host[0]] + host[1..];
      [host[0]] + AccountFromHost(host[1..])
    else
      assert '.' !in host by { assert host == [host[0]] + host[1..]; }
      ""
  }

  /** `getCloudantConfig`. The node lookup and the service lookup are the
      runtime's and the platform's; a service name that is not bound makes
      `service.credentials` throw, and so does a host that is not a
      string. */
  function GetCloudantConfig(service: string, cloudantRef: Value,
                             getNode: Value -> Option<Configuration.ConfigNode>,
                             getService: string -> Value): (r: Result<CloudantConfig>)
    ensures service == "_ext_" ==> r == Ok(ExternalNode(getNode(cloudantRef)))
    ensures service == "" ==> r == Ok(NoService)
    ensures r.Ok? && r.value.ServiceBinding? ==> service != "_ext_" && service != ""
  {
    if service == "_ext_" then Ok(ExternalNode(getNode(cloudantRef)))
    else if service != "" then
      var record := getService(service);
      var credentials :- Get(record, "credentials");
      var host :- Get(credentials, "host");
      if !host.Str? then Throw(TypeError("host.indexOf is not a function"))
      else
        Ok(ServiceBinding(Get(credentials, "username").value, Get(credentials, "password").value,
                          AccountFromHost(host.s)))
    else Ok(NoService)
  }

  /** `indexOf('.')` finds the first dot, so the account is everything
      before it. */
  lemma {:induction false} AccountBeforeFirstDot(a: string, b: string)
    requires '.' !in a
    ensures AccountFromHost(a + "." + b) == a
  {
    var h := a + "." + b;
    if |a| > 0 {
      assert h[1..] == a[1..] + "." + b;
      assert '.' in h[1..] by { assert h[1..][|a| - 1] == '.'; }
      AccountBeforeFirstDot(a[1..], b);
      assert [h[0]] + a[1..] == a;
    }
  }

  /** A bound service supplies its own user name and password, and its
      account is the first label of its host. */
  lemma BoundServiceConfig(service: string, cloudantRef: Value,
                           getNode: Value -> Option<Configuration.ConfigNode>,
                           getService: string -> Value, creds: Props, a: string, b: string)
    requires service != "_ext_" && service != ""
    requires Get(getService(service), "credentials") == Ok(Obj(creds))
    requires Field(creds, "host") == Str(a + "." + b) && '.' !in a
    ensures GetCloudantConfig(service, cloudantRef, getNode, getService)
            == Ok(ServiceBinding(Field(creds, "username"), Field(creds, "password"), a))
  {
    AccountBeforeFirstDot(a, b);
  }

  /** A service name that is not bound fails on `service.credentials`. */
  lemma UnboundServiceThrows(service: string, cloudantRef: Value,
                             getNode: Value -> Option<Configuration.ConfigNode>,
                             getService: string -> Value)
    requires service != "_ext_" && service != ""
    requires getService(service) == Undefined
    ensures GetCloudantConfig(service, cloudantRef, getNode, getService).Throw?
  {
  }

  /** The connection options the nodes hand to the client library:
      `{account, key, password, url}` read off the configuration. With no
      configuration (no service selected, or a node reference that does
      not resolve) reading them throws. */
  datatype Credentials = Credentials(account: Value, key: Value, password: Value, url: Value)

  function OptionalString(o: Option<string>): Value {
    match o
    case Some(s) => Str(s)
    case None => Undefined
  }

  function OptionalValue(o: Option<Value>): Value {
    match o
    case Some(v) => v
    case None => Undefined
  }

  function ClientCredentials(config: CloudantConfig): (r: Result<Credentials>)
    ensures r.Throw? <==> config.NoService? || (config.ExternalNode? && config.node.None?)
    ensures config.ServiceBinding? ==> r == Ok(Credentials(Str(config.account), config.username, config.password, Undefined))
    ensures config.ExternalNode? && config.node.Some? ==>
              && r.Ok?
              && (r.value.url == Undefined <==> config.node.value.url.None?)
              && (r.value.account == Undefined <==> config.node.value.account.None?)
    ensures config.ExternalNode? && config.node.Some? ==>
              var n := config.node.value;
              && (n.account.Some? ==> r.value.account == Str(n.account.value))
              && (n.url.Some? ==> r.value.url == Str(n.url.value))
              && (n.username.Some? ==> r.value.key == n.username.value)
              && (n.username.None? ==> r.value.key == Undefined)
              && (n.password.Some? ==> r.value.password == n.password.value)
              && (n.password.None? ==> r.value.password == Undefined)
  {
    match config
    case NoService => Throw(TypeError("Cannot read properties of undefined (reading 'account')"))
    case ExternalNode(None) => Throw(TypeError("Cannot read properties of null (reading 'account')"))
    case ExternalNode(Some(n)) =>
      Ok(Credentials(OptionalString(n.account), OptionalValue(n.username),
                     OptionalValue(n.password), OptionalString(n.url)))
    case ServiceBinding(u, p, a) => Ok(Credentials(Str(a), u, p, Undefined))
  }

  /** Connecting through a configuration node uses either its account
      (Cloudant hosts) or its URL (any other host), never both. */
  lemma ConfigNodeGivesAccountOrUrl(name: Value, configHost: string,
                                    parseHost: Configuration.HostParser, credentials: Option<Props>)
    ensures var c := ClientCredentials(ExternalNode(Some(Configuration.NewConfigNode(name, configHost, parseHost, credentials))));
            c.Ok? && (c.value.account == Undefined <==> c.value.url != Undefined)
  {
  }
}
