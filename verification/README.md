# Node-RED Cloudant nodes, modelled in Dafny

This project models the decision logic of the Node-RED nodes for IBM
Cloudant (CouchDB). It covers both generations of the plugin.

The current generation has a configuration node that finds the Cloudant
account in a host name. It has a `cloudant out` node that creates its
database and inserts or deletes documents, with a bounded retry. It has a
`cloudant in` node that looks documents up by id, by search index or by
listing, then reshapes the result. It has an attachment node that fetches
one attachment or all of them and joins the fetches with a counter. Shared
helpers clean database names and message keys, pick properties and
document ids from a message, and turn the service selection into
credentials. The plugin entry point registers the node types and serves
the list of bound Cloudant services.

The legacy generation is a single file with its own versions of these
pieces: the credential admin routes, the credential node that builds an
authenticated URL, and the output and input nodes.

Modelling conventions:

- JavaScript values are a datatype (`Values.Value`). Objects are ordered
  key/value sequences, because key enumeration order is observable.
- Throwing is a `Result` whose error records the JavaScript error kind.
  The model keeps the source's latent defects as error outcomes: the
  out-of-scope `node` in `cleanMessage`, the out-of-scope `cloudant` in
  the insert retry, and the `node.erro` typo.
- Every database request is an oracle. A run takes the sequence of
  replies the client delivers and returns the requests issued
  (`Db.DbCall`) and the observable effects: messages sent, warnings and
  errors logged, and exceptions escaping.
- The retry loops and the attachment join are folds over those reply
  sequences.
- `JSON.parse`, `url.parse`, `encodeURIComponent`, the platform service
  lookup, the node registry and `Buffer.toString(encoding)` are
  function-typed parameters.

Modules, one per file: `Values` and `Text` (JavaScript semantics),
`Db`, `Utils`, `Configuration`, `Messages`, `Modify`, `Query`,
`Attachments`, `Admin` (plugin entry point: service list and type
registration) and `Legacy`.

Where the code and its comments disagree, the model follows the code.
The comment above `cleanDatabaseName`'s `^_` replacement says "trailing",
but the regex removes one leading underscore, and the model does the same.

## Model

| member | source | states |
|---|---|---|
| Utils.CleanDatabaseName | cloudant-cf/utils.js:7-22 | The cleaned name has no ASCII upper-case letter and no whitespace, `/` or `\`. It starts with `_` exactly when the input starts with `__`. The rename warning is issued exactly when the name changed, with the source's text (double space included). |
| Utils.CollapseRuns | cloudant-cf/utils.js:15 | No separator survives, lower-case input stays lower-case, and a leading separator run becomes a leading `-`. |
| Utils.MaximalRunBecomesOneHyphen | cloudant-cf/utils.js:15 | A maximal run of whitespace and slashes becomes exactly one `-`, and the text on either side is cleaned independently. |
| Utils.CleanDatabaseNameIdempotentIff | cloudant-cf/utils.js:7-22 | Cleaning a cleaned name changes nothing exactly when the original did not start with `__`. |
| Utils.DoubleUnderscoreExample | cloudant-cf/utils.js:13 | `"__a"` cleans to `"_a"`, which cleans to `"a"`. |
| Utils.FirstInvalid | cloudant-cf/utils.js:30-39 | Locates the first key, in enumeration order, that starts with `_` and is not one of the nine reserved names; every earlier key is valid. |
| Utils.RenameFirstInvalid | cloudant-cf/utils.js:41-43 | The value of the first invalid key moves to the renamed key; the old key is gone and every other key keeps its value. |
| Utils.RenameDropsFirstCharacter | cloudant-cf/utils.js:41 | For a message without a `length` property, the new key is the old key without its first character. |
| Utils.NumericLengthText | cloudant-cf/utils.js:41 | A `length` holding a number's decimal text, or a one-element array of that number, cuts the new key exactly where the number would, as `substring` converts its argument with `Number`. |
| Utils.LengthTextExample | cloudant-cf/utils.js:41 | `{_x: 1, length: "3"}` renames `_x` to `x`. |
| Utils.CleanMessage | cloudant-cf/utils.js:27-49 | A non-object, or an object whose keys are all valid, comes back unchanged. Any invalid key ends in a ReferenceError for `node`. |
| Utils.FromPayload | cloudant-cf/utils.js:72-76 | An object payload yields the property or `null`; a `null` payload makes the `in` test throw. |
| Utils.GetProperty | cloudant-cf/utils.js:58-80 | Precedence: a truthy own property of the node (never for `id`), then a present property of the message (even if falsy), then one of an object payload, else `null`. It throws only for a `null` message or a `null` payload. |
| Utils.MessageShadowsPayload | cloudant-cf/utils.js:67-70 | A property present on the message with a falsy value is still the answer; the payload is not consulted. |
| Utils.NullPayloadThrows | cloudant-cf/utils.js:72-73 | A missing property with a `null` payload throws. |
| Utils.GetDocumentId | cloudant-cf/utils.js:52-56 | The id is the first truthy of `_id` and `id`; when both are falsy it is the message's payload, whatever that is. |
| Utils.FalsyIdsFallThrough | cloudant-cf/utils.js:52-56 | An `_id` of `""` and an `id` of `0` are skipped in favour of the payload. |
| Utils.NodeIdIgnored | cloudant-cf/utils.js:59 | The node's own `id` property is never used as the document id. |
| Utils.AccountFromHost | cloudant-cf/utils.js:99 | The account is the host up to its first `.`, or `""` when the host has no `.`. |
| Utils.AccountBeforeFirstDot | cloudant-cf/utils.js:99 | For any `a` without a dot, `a + "." + b` yields `a`. |
| Utils.GetCloudantConfig | cloudant-cf/utils.js:85-102 | `"_ext_"` yields the referenced configuration node (possibly missing), `""` yields nothing, and any other selector reads a bound service. |
| Utils.BoundServiceConfig | cloudant-cf/utils.js:90-100 | A bound service gives its username, its password and the account before the first dot of its host. |
| Utils.UnboundServiceThrows | cloudant-cf/utils.js:92-94 | Selecting a service that is not bound throws when its credentials are read. |
| Utils.ClientCredentials | cloudant-cf/nodes/modify.js:33-38 | Building client credentials throws exactly when no service is selected or the referenced node is missing. A bound service supplies its account, user name and password and no URL. A configuration node supplies its own account, user name (as `key`), password and URL, each `undefined` when the node has none. |
| Utils.ConfigNodeGivesAccountOrUrl | cloudant-cf/nodes/configuration.js:20-24 | Credentials from a configuration node carry exactly one of an account and a URL. |
| Configuration.CaptureIsForced | cloudant-cf/nodes/configuration.js:3 | In any match of the account pattern, the captured group is the whole letter/digit run, so there is no other way to match at that position. |
| Configuration.FindMatch | cloudant-cf/nodes/configuration.js:20 | Finds the leftmost match from a position, or reports that none exists. |
| Configuration.MatchAccount | cloudant-cf/nodes/configuration.js:20-24 | No account exactly when the pattern matches nowhere; otherwise the account is the captured group of a match. |
| Configuration.LeftmostMatchIsAccount | cloudant-cf/nodes/configuration.js:20-22 | The account is the capture of the leftmost match. |
| Configuration.AccountAfterPrefix | cloudant-cf/nodes/configuration.js:3 | A host made of a dot-free prefix ending in a non-alphanumeric character, then an account, then any-case `.cloudant.com`, then anything, yields that account. |
| Configuration.HyphenatedHostExample | cloudant-cf/nodes/configuration.js:3 | `"my-acct.cloudant.com"` yields `"acct"`. |
| Configuration.UnanchoredExample | cloudant-cf/nodes/configuration.js:3 | `"x.cloudant.com.example.org"` yields `"x"`. |
| Configuration.CaseKeptExample | cloudant-cf/nodes/configuration.js:3 | `"ACCT.Cloudant.COM"` yields `"ACCT"`, in its original case. |
| Configuration.NewConfigNode | cloudant-cf/nodes/configuration.js:9-37 | The URL is dropped exactly when an account is found, and otherwise equals the configured host. The username comes from `username` and the password from `pass`. |
| Messages.WrapperText | cloudant-cf/nodes/modify.js:162 | The pasted wrapper text holds the root and the text at fixed positions. |
| Messages.ParseWrapper | cloudant-cf/nodes/modify.js:162 | When neither part needs escaping, the wrapper parses to `{root: text}` with a string value; otherwise the parser decides, and a syntax error escapes. |
| Messages.ParseMessageRaw | cloudant-cf/nodes/modify.js:155-168 | Objects, `null` and arrays pass through. Other values are parsed; an object result is kept, and anything else is wrapped. |
| Messages.UnparsableTextIsWrapped | cloudant-cf/nodes/modify.js:164-166 | Text that is not JSON and needs no escaping becomes `{root: text}`. |
| Messages.NumberIsWrappedAsString | cloudant-cf/nodes/modify.js:158-162 | The number `5` becomes `{payload: "5"}`. |
| Messages.QuoteInTextThrows | cloudant-cf/nodes/modify.js:166 | Text containing a quote can break the wrapper, and the parse error then escapes. |
| Messages.PlainResultIsObject | cloudant-cf/nodes/modify.js:155-168 | When no escaping is needed, the result is always an object. |
| Modify.ParseMessage | cloudant-cf/nodes/modify.js:155-170 | The conversion result goes through key cleaning; a cleaning failure is the ReferenceError for `node`. |
| Modify.ObjectsPassThrough | cloudant-cf/nodes/modify.js:156 | Any object, `null` or array with valid keys comes back as it is. |
| Modify.InvalidKeyThrows | cloudant-cf/nodes/modify.js:169 | One invalid key anywhere makes the conversion throw. |
| Modify.InsertDocument | cloudant-cf/nodes/modify.js:117-139 | At most `attempts + 1` inserts. Every reply before the last was retried. A `not_found` reply with attempts left ends in the ReferenceError for `cloudant`. Otherwise the last reply is delivered, and with attempts left it is a success. |
| Modify.FirstSuccessDelivered | cloudant-cf/nodes/modify.js:118-137 | After `k` retried failures, the first success is delivered at once, on insert `k + 1`. |
| Modify.GivesUpAfterFourInserts | cloudant-cf/nodes/modify.js:21 | With three attempts, four failing inserts deliver the fourth reply. |
| Modify.NotFoundThrows | cloudant-cf/nodes/modify.js:120-124 | A `not_found` reply while attempts remain throws instead of creating the database. |
| Modify.CreateReport | cloudant-cf/nodes/modify.js:47-51 | A create failure is logged once with its description, unless it is one that never calls back. |
| Modify.CreateFailureLoggedUnlessExpected | cloudant-cf/nodes/modify.js:66-75 | A failure is silent exactly when it is `file_exists` or `forbidden`. |
| Modify.DeleteDocument | cloudant-cf/nodes/modify.js:141-153 | The `_id`/`_rev` guard does not stop the request: every object is destroyed with its `_id` and `_rev`, present or not. A non-object throws. |
| Modify.NewModifyNode | cloudant-cf/nodes/modify.js:27-29 | The node keeps the operation and payonly flag and cleans the database name. |
| Modify.Startup | cloudant-cf/nodes/modify.js:24-51 | The rename warning comes first. The create request is made exactly when the configuration lookup, the credentials and the connection all succeed, and its failure report follows the warning. A failed lookup or credentials read ends in that exception, and a failed connection logs the error's description. |
| Modify.InsertEffects | cloudant-cf/nodes/modify.js:93-103 | A delivered failure is logged and nothing is sent. A delivered success sends the message with the receipt as its payload. |
| Modify.OnInput | cloudant-cf/nodes/modify.js:86-111 | Unknown operations do nothing. Insert issues at most four inserts and at most one effect. Delete issues exactly one request or reports one exception. |
| Modify.InsertSuccessSendsReceipt | cloudant-cf/nodes/modify.js:56 | The document inserted and the message sent both lack `_msgid`, and the sent payload is the receipt. |
| Modify.InsertFailureSendsNothing | cloudant-cf/nodes/modify.js:94-98 | A failed insert sends nothing. |
| Modify.DeleteWithoutRevisionStillDestroys | cloudant-cf/nodes/modify.js:105-109 | A payload with only `_id` is destroyed with an undefined revision, and no error is reported. |
| Modify.PayonlyTextWrappedUnderPayload | cloudant-cf/nodes/modify.js:88-90 | With payonly, a non-JSON text payload is stored as `{payload: text}` on every attempt. |
| Modify.TextPayloadDeletesUndefined | cloudant-cf/nodes/modify.js:106 | On delete, a text payload is wrapped under the empty key, and the destroy request has neither id nor revision. |
| Text.Trim | cloudant-cf/nodes/query.js:89 | The result has no leading or trailing whitespace, and already trimmed text is unchanged. |
| Query.PairsText | cloudant-cf/nodes/query.js:84-87 | The accumulated `key:value ` text is empty exactly when there are no keys. |
| Query.PairsTextIsJoin | cloudant-cf/nodes/query.js:84-87 | The accumulated text is the pairs joined by single spaces, plus one trailing space. |
| Query.FormatSearchQuery | cloudant-cf/nodes/query.js:79-92 | Non-objects come back unchanged. An object with `q` yields its `q`. Any other object yields trimmed text, and `""` when empty. `null` throws. |
| Query.FormattedQueryJoinsPairs | cloudant-cf/nodes/query.js:84-89 | Pairs without surrounding whitespace format to exactly `"k1:v1 k2:v2 …"`. |
| Query.TwoPairQueryExample | cloudant-cf/nodes/query.js:84-89 | `{a: "x", b: 1}` formats to `"a:x b:1"`. |
| Query.Default | cloudant-cf/nodes/query.js:60-61 | Defaulting keeps a truthy value and otherwise stores the fallback, changing no other key. |
| Query.ChooseQuery | cloudant-cf/nodes/query.js:59 | The query is `options.query` if truthy, else `options.q` if truthy, else the formatted payload. |
| Query.SearchOptions | cloudant-cf/nodes/query.js:58-61 | The search options carry the chosen query, a truthy `include_docs` and a truthy `limit`, and keep every other payload key. A scalar payload yields `{query, include_docs: true, limit: 200}`. |
| Query.SearchOptionsStepwise | cloudant-cf/nodes/query.js:58-61 | The options agree with the three assignments applied one after another to the same object. |
| Query.ListOptions | cloudant-cf/nodes/query.js:68 | Listing forces a truthy `include_docs` and keeps every other payload key. |
| Query.FalsyOptionsAreOverridden | cloudant-cf/nodes/query.js:60-61 | `include_docs: false` becomes `true`, and `limit: 0` becomes `200`; a non-zero limit stays. |
| Query.RowDocOfDocument | cloudant-cf/nodes/query.js:114-118 | A row keeps its document unless the document's id contains `_design/`. |
| Query.FilterRows | cloudant-cf/nodes/query.js:112-121 | The kept documents are never more than the rows. |
| Query.FilterRowsAppend | cloudant-cf/nodes/query.js:112-121 | Filtering distributes over concatenation, so order is preserved. |
| Query.FilterRowsOkIff | cloudant-cf/nodes/query.js:114-115 | Filtering succeeds exactly when every row's document id can be read. |
| Query.FilterOneRow | cloudant-cf/nodes/query.js:114-121 | A single row keeps its document exactly when its id is not a design id. |
| Query.SubstringNotPrefix | cloudant-cf/nodes/query.js:115 | `_design/` anywhere in the id excludes the document, not only as a prefix. |
| Query.ResultPayload | cloudant-cf/nodes/query.js:110-124 | A body without `rows` passes through, and a body with rows yields the filtered documents. A non-object body throws at the `in` test. |
| Query.SendDocumentOnPayload | cloudant-cf/nodes/query.js:94-130 | An error nulls the payload and still sends, after a warning for `not_found` or an error log otherwise. A success sends with `payload` and `cloudant` equal. |
| Query.EveryReplyIsAnswered | cloudant-cf/nodes/query.js:94-130 | Every reply that can be reshaped sends exactly one message. |
| Query.NewQueryNode | cloudant-cf/nodes/query.js:25-30 | The node starts with an empty input id, a cleaned database name and the configured mode. |
| Query.Startup | cloudant-cf/nodes/query.js:22-45 | Start-up issues no request. A failing configuration lookup is that exception alone, raised before the rename warning. Otherwise the rename warning, if any, is followed by the credentials exception, the connect error's description, or nothing. |
| Query.StartupSilentIff | cloudant-cf/nodes/query.js:25-44 | Start-up is silent exactly when the lookup, the credentials and the connection succeed and the database name needs no change. |
| Query.OnInput | cloudant-cf/nodes/query.js:46-74 | `_id_` records the id and gets the document. `_idx_` searches with the defaulted options. `_all_` lists. Any other mode does nothing. At most one request. Once a request is made, its reply is answered by `sendDocumentOnPayload` on the updated node. Before the reply arrives, the only possible effect is an exception. |
| Query.IdNotFoundNamesLookedUpId | cloudant-cf/nodes/query.js:50-100 | In `_id_` mode a `not_found` reply warns with the id just looked up. |
| Query.SearchNotFoundNamesEmptyId | cloudant-cf/nodes/query.js:27-100 | A search or list node keeps its node state and never records an id, so a `not_found` reply warns `Document "" not found in database "<db>".` |
| Attachments.Encode | cloudant-cf/nodes/attachments.js:124-126 | `'none'` returns the body untouched. Any other encoding decodes a buffer to text, prints a string, boolean, array or object as its own text, and throws on `null` or `undefined`. |
| Attachments.EncodeTwice | cloudant-cf/nodes/attachments.js:124-126 | Encoding an encoded value again gives the same result. |
| Attachments.GetAttachment | cloudant-cf/nodes/attachments.js:83-97 | Fetches the named attachment of the document's id, and on success answers `{attachment: manifest entry, body}`. It throws when the document or its manifest is missing. |
| Attachments.ManifestProps | cloudant-cf/nodes/attachments.js:111 | The keys enumerated are the manifest's own keys; a missing manifest throws. |
| Attachments.FetchCalls | cloudant-cf/nodes/attachments.js:111-112 | One fetch per manifest key, in key order. |
| Attachments.GetAllAttachments | cloudant-cf/nodes/attachments.js:99-122 | The requests are the fetches of every key, and the callbacks are the join over the completion events. |
| Attachments.JoinCounts | cloudant-cf/nodes/attachments.js:104-116 | The counter counts successes; every failure adds one error callback; success is called back exactly when the counter reaches the key count. |
| Attachments.AllDoneEndsInSuccess | cloudant-cf/nodes/attachments.js:104-108 | When the remaining events are all successes, the last one calls back with the filled manifest. |
| Attachments.JoinFillsEntry | cloudant-cf/nodes/attachments.js:118 | Each entry's `data` is the body of the last successful fetch of that key. |
| Attachments.JoinSucceedsOnceIffAllSucceed | cloudant-cf/nodes/attachments.js:99-122 | For N keys and N events in any order, success is called back at most once, and exactly once when all N fetches succeed. Each failure gets its own error callback. |
| Attachments.AllSucceedCallsBackOnce | cloudant-cf/nodes/attachments.js:104-108 | When all fetches succeed, the only callback is one success whose manifest has the original keys. |
| Attachments.EncodeEntriesAt | cloudant-cf/nodes/attachments.js:71-74 | Every listed entry has its data encoded, and every other entry is untouched. |
| Attachments.EncodeEntriesKeepsKeys | cloudant-cf/nodes/attachments.js:71-74 | Encoding keeps the manifest's keys in order. |
| Attachments.NoneEncodingKeepsEntries | cloudant-cf/nodes/attachments.js:125 | With `'none'` the manifest is unchanged. |
| Attachments.Resolve | cloudant-cf/nodes/attachments.js:40-41 | The name is what `getProperty` gives. The id is the configured `docId` when that is truthy, else what `getDocumentId` gives. Resolution throws exactly when `getProperty` throws, or when `getDocumentId` throws for an unconfigured id. |
| Attachments.AnswerOne | cloudant-cf/nodes/attachments.js:51-61 | One answer per callback: a failure logs once and sends the message; a success sends it when the body can be encoded. |
| Attachments.AnswerAll | cloudant-cf/nodes/attachments.js:64-69 | A failure logs and sends the unchanged message. |
| Attachments.AnswerEachFailure | cloudant-cf/nodes/attachments.js:65-68 | Each error callback is answered separately. |
| Attachments.FailuresAnsweredSeparately | cloudant-cf/nodes/attachments.js:113-116 | `k` error callbacks give `k` error logs and `k` sends of the message. |
| Attachments.OnInput | cloudant-cf/nodes/attachments.js:39-81 | The document is requested first. A failed document fetch requests nothing more and sends nothing. A resolution failure is an exception. |
| Attachments.NewAttachmentNode | cloudant-cf/nodes/attachments.js:12-15 | The node keeps the database, id, attachment name and encoding as configured, with no name cleaning. |
| Attachments.Startup | cloudant-cf/nodes/attachments.js:8-30 | No request and no warning. A failed configuration lookup or credentials read is that exception alone. A connection error logs its description. Start-up is silent exactly when the configuration and connection succeed. |
| Attachments.ResolvedDispatch | cloudant-cf/nodes/attachments.js:39-79 | Once the document arrives, a truthy resolved name takes the single-attachment path and any other name takes the all-attachments path. Either way the document request comes first. This holds wherever the name and id came from. |
| Attachments.ConfiguredSettingsWin | cloudant-cf/nodes/attachments.js:40-41 | Configured name and id decide the request whatever the message says. |
| Attachments.DocumentFailureNeverAnswers | cloudant-cf/nodes/attachments.js:45 | A failed document fetch ends in a TypeError from `node.erro`, and nothing is sent. |
| Attachments.SingleAttachmentSent | cloudant-cf/nodes/attachments.js:58-61 | The sent message has the encoded body as payload and the manifest entry as `attachment`. |
| Attachments.EmptyManifestNeverAnswers | cloudant-cf/nodes/attachments.js:104-111 | An empty manifest issues no fetch and never answers. |
| Attachments.FailedFetchesAnsweredOnceEach | cloudant-cf/nodes/attachments.js:113-116 | With `k > 0` failed fetches the node logs `k` errors and sends the original message `k` times, and nothing else. |
| Attachments.AllPathWithoutCrash | cloudant-cf/nodes/attachments.js:64-79 | Without an exception, the effects are the answers to the join's callbacks, in order. |
| Attachments.FilledAfterJoin | cloudant-cf/nodes/attachments.js:118 | After the join, every entry holds its fetched body. |
| Attachments.SentEntry | cloudant-cf/nodes/attachments.js:71-76 | Each sent entry is the original metadata with `data` set to its encoded body. |
| Attachments.AllFetchedSendsManifest | cloudant-cf/nodes/attachments.js:64-78 | When every fetch succeeds, exactly one message is sent: the manifest with the same keys and encoded data. |
| Admin.Summary | cloudant-cf/77-cloudant-cf.js:34-36 | A service entry is projected to exactly `{name, label}`; `null` or `undefined` throws. |
| Admin.SummarizeAll | cloudant-cf/77-cloudant-cf.js:34-36 | The projection succeeds exactly when no entry is `null` or `undefined`, and keeps length and order. |
| Admin.MapSummaries | cloudant-cf/77-cloudant-cf.js:34 | A list is projected; a non-list value has no `map` and throws. |
| Admin.CloudantServices | cloudant-cf/77-cloudant-cf.js:31-38 | Every listed entry is a `{name, label}` object. |
| Admin.VcapServices | cloudant-cf/77-cloudant-cf.js:27-41 | Only an object of services contributes; anything else gives an empty list. |
| Admin.NoKeyMatches | cloudant-cf/77-cloudant-cf.js:33 | Without a key starting with `cloudant` (any case) the list is empty. |
| Admin.OnlyMatchingKeysCount | cloudant-cf/77-cloudant-cf.js:33 | The list depends only on the matching keys. |
| Admin.CloudantServicesAppend | cloudant-cf/77-cloudant-cf.js:31-38 | The list of concatenated services is the concatenation of their lists, and the first exception wins. |
| Admin.OneEntryPerBoundService | cloudant-cf/77-cloudant-cf.js:31-38 | The list length is the sum of the matching lists' lengths. |
| Admin.ListedEntryHasSource | cloudant-cf/77-cloudant-cf.js:34-36 | Every listed entry is the projection of some entry under a matching key. |
| Admin.FilterExample | cloudant-cf/77-cloudant-cf.js:33 | `CloudantNoSQLDB` contributes both of its entries; `my-cloudant` is ignored. |
| Admin.NullServiceFails | cloudant-cf/77-cloudant-cf.js:34-36 | One `null` entry under a matching key makes the whole request throw. |
| Admin.LoadLegacy | 77-cloudant-cf.js:29-36 | The legacy plugin loads exactly when its service list can be computed at load time. |
| Admin.LoadTimeAgainstRequestTime | 77-cloudant-cf.js:25-43 | The legacy endpoint answers every request with the list computed at load, whatever is bound at request time. It agrees with the current endpoint exactly when the bindings at that moment give the same list. |
| Admin.LateBindingExample | cloudant-cf/77-cloudant-cf.js:27-41 | A Cloudant service bound after loading appears in the current endpoint's answer and not in the legacy one's. |
| Admin.ConstructorFor | cloudant-cf/77-cloudant-cf.js:44-56 | A type name resolves exactly when it is registered, and to the registered constructor. |
| Admin.TypeNamesDistinct | cloudant-cf/77-cloudant-cf.js:44-56 | No type name is registered twice, in either generation. |
| Admin.OutputTypesShareConstructor | cloudant-cf/77-cloudant-cf.js:51-52 | `cloudant out` and `cloudant mid out` register the same modify constructor. |
| Admin.LegacyTypesStillRegistered | cloudant-cf/77-cloudant-cf.js:44-54 | Every legacy type name is still registered; the attachment type is new. |
| Legacy.HasPasswordValue | 77-cloudant-cf.js:53 | `hasPassword` is `true` exactly for a truthy password, and is never a non-empty string. |
| Legacy.CredentialSummary | 77-cloudant-cf.js:46-59 | No credentials give `{}`. Otherwise the summary has only `user` and `hasPassword`, with the user as stored and `hasPassword` true exactly for a truthy password. |
| Legacy.SetUser | 77-cloudant-cf.js:77-81 | A user that is missing, `null` or loosely equal to `""` deletes the stored user; any other replaces it. |
| Legacy.SetPassword | 77-cloudant-cf.js:83-87 | A password loosely equal to `""` is deleted, a truthy one replaces the stored one, and any other keeps it. |
| Legacy.MergeCredentials | 77-cloudant-cf.js:74-89 | The merge sets user and password by those rules and keeps every other stored field. |
| Legacy.MissingPasswordKept | 77-cloudant-cf.js:86 | A form without a password keeps the stored password. |
| Legacy.PostCredentials | 77-cloudant-cf.js:66-92 | Posting stores the merge under the id and changes no other id. |
| Legacy.DeleteCredentials | 77-cloudant-cf.js:61-64 | Deleting removes only that id. |
| Legacy.PostThenGet | 77-cloudant-cf.js:46-92 | Posting a non-empty user and password, then getting, gives `{user, hasPassword: true}`. |
| Legacy.EmptyPasswordClears | 77-cloudant-cf.js:83-84 | Posting an empty password leaves no `hasPassword` in the summary. |
| Legacy.DeleteThenGet | 77-cloudant-cf.js:46-64 | After a delete, that id reads as `{}` and other ids read as before. |
| Legacy.MergeIdempotent | 77-cloudant-cf.js:74-89 | Posting the same form twice stores the same credentials as posting it once. |
| Legacy.UserInfo | 77-cloudant-cf.js:112-114 | The userinfo part is empty exactly when user and password are not both truthy. Otherwise it is the user name as it is, `:`, the encoded password and `@`. |
| Legacy.AuthUrl | 77-cloudant-cf.js:109-117 | The URL is the protocol and `//`, then the userinfo, then the host name. |
| Legacy.NewCloudantNode | 77-cloudant-cf.js:97-118 | A non-string host name throws in the URL parser. The node keeps the stored user and password, or `undefined` without a record. Its URL is the parsed protocol, `//`, the userinfo of those credentials and the parsed host name. |
| Legacy.PortAndPathDropped | 77-cloudant-cf.js:109-115 | Two hosts that differ only in port or path give the same URL. |
| Legacy.MissingProtocolExample | 77-cloudant-cf.js:110 | A host name without a protocol gives a URL starting with `null//`. |
| Legacy.StoredCredentialsInUrl | 77-cloudant-cf.js:103-117 | With a stored truthy user and password, the URL is the protocol, `//`, the user name, `:`, the encoded password, `@` and the host name. |
| Legacy.GetUrl | 77-cloudant-cf.js:243-256 | `"_ext_"` gives the referenced node's URL, or undefined. `""` and an unbound service give undefined. A bound service yields its `credentials.url`, and throws exactly when its credentials are `null` or `undefined`. |
| Legacy.UnboundServiceContrast | 77-cloudant-cf.js:250-255 | An unbound service yields an undefined URL in the legacy nodes, where the current nodes throw. |
| Legacy.InsertDocument | 77-cloudant-cf.js:197-208 | At most `attempts + 1` inserts. Only status 404 is retried. Any other reply, or a 404 once attempts are spent, is delivered as it is. |
| Legacy.FirstOtherReplyDelivered | 77-cloudant-cf.js:198-206 | After `k` retried 404s, the first other reply is delivered on insert `k + 1`. |
| Legacy.RunCalls | 77-cloudant-cf.js:198-203 | A run alternates insert and create requests, starting and ending with an insert. |
| Legacy.RetryContrast | 77-cloudant-cf.js:199 | A status-500 error is delivered at once by the legacy node but retried by the current one. A 404 `not_found` is retried by the legacy node but throws in the current one. |
| Legacy.NeedsCreate | 77-cloudant-cf.js:140 | The database is created exactly when the list is truthy and does not contain it. |
| Legacy.OutStartup | 77-cloudant-cf.js:128-173 | Without a URL the node logs `missing cloudant configuration` and requests nothing. Otherwise it lists the databases and creates its own exactly when the list reply lacks it, reporting a failed create. A failed list is reported, and an exception in `_getUrl` ends the constructor. |
| Legacy.NewOutNode | 77-cloudant-cf.js:124-128 | The node keeps the database name unchanged and the payonly flag. |
| Legacy.DeleteDocument | 77-cloudant-cf.js:158-167 | An object is destroyed exactly when both `_rev` and `_id` are present, and otherwise no request is made. A non-object throws. |
| Legacy.DeleteGuardContrast | 77-cloudant-cf.js:161 | Without `_rev` the legacy node makes no request, while the current node still destroys. |
| Legacy.OnInput | 77-cloudant-cf.js:148-169 | The output node never sends a message. Insert sends the parsed document (the payload with `payonly`, else the whole message), repeats it after each create of the retry run, and reports the delivered failure. Delete sends the destroy request `DeleteDocument` builds, or logs the guard text when it builds none, and reports a failed destroy. A parse exception ends the handler. |
| Legacy.InsertKeepsMessageId | 77-cloudant-cf.js:148-156 | The legacy node inserts the message as it is, `_msgid` included, without key cleaning. |
| Legacy.PayonlyInsertsPayload | 77-cloudant-cf.js:149-154 | With `payonly` an object payload is itself the inserted document. |
| Legacy.DeleteByPayloadIds | 77-cloudant-cf.js:158-163 | A payload object with `_id` and `_rev` is destroyed by them, and a failed destroy is reported. |
| Legacy.MissingDatabaseCreatedThenInserted | 77-cloudant-cf.js:197-206 | A 404 reply leads to insert, create, insert, and the second reply is reported only if it failed. |
| Legacy.NewInNode | 77-cloudant-cf.js:212-225 | The input node exists exactly when its URL is truthy, and keeps the design and index. |
| Legacy.InOnInput | 77-cloudant-cf.js:227-237 | One search with `{q: payload}`. A success sends a fresh `{payload: result}`, and a failure reports the error. |
| Legacy.UnconfiguredNodes | 77-cloudant-cf.js:171-173 | With no service selected, the output node logs the missing configuration and the input node stays inert. |
| Legacy.SearchResultDropsMessage | 77-cloudant-cf.js:233 | The sent message holds only the result; nothing of the input message is kept. |

## Left out

- HTTP handling, the Node-RED runtime (node creation, registration side effects, `send`/`warn`/`error` dispatch) and the credential store are not modelled; the store is a map from id to credentials.
- `JSON.parse`, `url.parse`, `querystring.parse`, `encodeURIComponent`, the platform environment (`cfenv`, `cf-env`), the node registry and `Buffer.toString(encoding)` are parameters, because their behaviour belongs to those libraries.
- `JSON.stringify` of the responses is not modelled as text. The admin routes return values, and only the omission of `undefined` members is modelled, in `CredentialSummary`.
- The CouchDB client's behaviour is not modelled; each run takes the replies as a given sequence.
- `process.nextTick` deferral is not modelled; it changes only timing.
- Real interleaving of callbacks is not modelled. The attachment join is a fold over any sequence of completion events.
- The join lemmas do not derive that every key is answered when each request is answered once (a pigeonhole argument). The lemmas that conclude about the sent manifest take "every key has an encodable body" as a hypothesis instead.
- The join is a fold over a value, so aliasing between `attachments` and the fetched document is not modelled.
- Property lookup does not follow the prototype chain. For example, `'toString' in {}` is false in the model.
- Object keys that look like array indices are not reordered.
- Object identity is not modelled; the legacy `indexOf` on the database list compares values structurally.
- The model stops with an explicit unmodelled outcome, instead of guessing, in these places:
  - a named property stored onto an array or a Buffer (`Values.Assign`). An array `msg.payload` sent to an `_idx_` or `_all_` node reaches this in `Query.SearchOptions` and `Query.ListOptions`, where JavaScript stores the properties and sends the request;
  - `map` over a Buffer (`Admin.MapSummaries`, `Query.ResultPayload`);
  - `indexOf` on an array or Buffer document id (`Query.RowDoc`) and on a Buffer database list (`Legacy.NeedsCreate`);
  - `Attachments.Encode` of a number, where `toString` takes the encoding as its radix.
- Numbers are integers. Fractions, NaN and infinities do not occur, and numbers render as decimal integers.
- Full CouchDB naming compliance is not claimed, because the sanitiser does not enforce it (for example, a leading digit survives).
- The `service` setting of both generations is a string, so an undefined `service` is not representable.
- The `database` setting of the current generation is a string, so the TypeError that `toLowerCase` throws on an undefined database (cloudant-cf/utils.js:11) is not representable.
- `String` of a Buffer turns each byte into one character (Latin-1), where Node.js decodes UTF-8; this only changes log texts that contain a Buffer.
- Utils.RenameFirstInvalid: a `length` text in hexadecimal, binary, octal or exponent notation reads as NaN, so as 0, where `Number` reads its value.
- Attachments.ManifestProps: `Object.keys` of a string or an array manifest is an explicit unmodelled outcome instead of its index keys.
- Utils.CleanDatabaseName: only ASCII letters are lower-cased; `toLowerCase` also maps other letters (for example `É` to `é`), which the model leaves unchanged.
- The legacy retry waits for the create reply but ignores its outcome. The model records the create request and not its reply.
- lib/renderer.js and render.js (template rendering and file I/O) are not part of this model.
- Modify.OnInput: its contract bounds the requests and effects; the exact outcomes for successful insert, failed insert, payonly text and delete are stated by the lemmas beside it.
- Query.FilterRows: its contract only bounds the length; what is kept and in what order is stated by `FilterRowsAppend`, `FilterRowsOkIff` and `FilterOneRow`.
- Admin.CloudantServices: its contract states the shape of each entry; which entries appear, in what order and how many is stated by `CloudantServicesAppend`, `OneEntryPerBoundService`, `ListedEntryHasSource` and `NullServiceFails`.
- Admin.VcapResponse: the per-request response of the current endpoint has no contract of its own; it is compared with the legacy load-time list in `LoadTimeAgainstRequestTime`, and so is `LegacyVcapResponse`.
- Legacy.GetCredentials: the route's response has no contract of its own; it is `CredentialSummary` of the stored record.
