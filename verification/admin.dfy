/** The plugin's entry file: the editor endpoint that lists the Cloudant
    services bound to the application, and the table of node types the
    plugin registers. Both generations of the plugin filter the bound
    services the same way; the legacy file does it once when it is
    loaded, the current one on every request. */
module Admin {
  import opened Text
  import opened Values

  const ServicePrefix: string := "cloudant"

  /** `/^(cloudant)/i`: the key begins with "cloudant" in any mix of case.
      Without the `u` flag the case-insensitive comparison never folds a
      character outside ASCII onto an ASCII letter, so ASCII folding is the
      whole comparison. */
  predicate IsCloudantKey(k: string) {
    |k| >= |ServicePrefix| && EqualsIgnoreCase(k[..|ServicePrefix|], ServicePrefix)
  }

  /** The projection each bound service goes through:
      `{ name: v.name, label: v.label }`. */
  function Summary(v: Value): (r: Result<Value>)
    ensures r.Throw? <==> LooseEqualsNull(v)
    ensures r.Ok? ==> r.value.Obj? && Keys(r.value.props) == ["name", "label"]
    ensures v.Obj? ==> r == Ok(Obj([("name", Field(v.props, "name")), ("label", Field(v.props, "label"))]))
  {
    match Get(v, "name")
    case Throw(e) => Throw(e)
    case Ok(name) =>
      var r := [("name", name), ("label", Get(v, "label").value)];
      assert Keys(r) == ["name", "label"];
      Ok(Obj(r))
  }

  /** `list.map(Summary)` on an array: the elements in order; the first one
      whose projection throws ends the whole request. */
  function SummarizeAll(es: seq<Value>): (r: Result<seq<Value>>)
    ensures r.Ok? <==> forall i :: 0 <= i < |es| ==> !LooseEqualsNull(es[i])
    ensures r.Ok? ==> |r.value| == |es|
    ensures r.Ok? ==> forall i :: 0 <= i < |es| ==> Summary(es[i]) == Ok(r.value[i])
  {
    if |es| == 0 then Ok([])
    else
      var head :- Summary(es[0]);
      var tail :- SummarizeAll(es[1..]);
      var r := [head] + tail;
      assert forall i :: 1 <= i < |es| ==> es[i] == es[1..][i - 1] && r[i] == tail[i - 1];
      Ok(r)
  }

  /** `services[key].map(...)`: only an array has a `map` to call. A
      Buffer's own `map` is not modelled. */
  function MapSummaries(list: Value): (r: Result<seq<Value>>)
    ensures list.Arr? ==> r == SummarizeAll(list.elems)
    ensures !list.Arr? && !list.Bytes? ==> r.Throw? && r.error.TypeError?
  {
    match list
    case Arr(es) => SummarizeAll(es)
    case Undefined => Throw(TypeError("Cannot read properties of undefined (reading 'map')"))
    case Null => Throw(TypeError("Cannot read properties of null (reading 'map')"))
    case Bytes(_) => Throw(Unmodelled("Buffer.prototype.map"))
    case _ => Throw(TypeError("services[service].map is not a function"))
  }

  /** The filtering loop over the bound services, key by key in `for ... in`
      order, concatenating the projected lists of the Cloudant keys. */
  function CloudantServices(ps: Props): (r: Result<seq<Value>>)
    ensures r.Ok? ==> forall j :: 0 <= j < |r.value| ==>
              r.value[j].Obj? && Keys(r.value[j].props) == ["name", "label"]
  {
    if |ps| == 0 then Ok([])
    else if IsCloudantKey(ps[0].0) then
      var here :- MapSummaries(ps[0].1);
      var rest :- CloudantServices(ps[1..]);
      assert forall j :: 0 <= j < |here| ==> Summary(ps[0].1.elems[j]) == Ok(here[j]);
      Ok(here + rest)
    else CloudantServices(ps[1..])
  }

  /** The list the endpoint sends for the value of `services`. Only an
      object has keys that can match: the `for ... in` keys of an array or
      a string are indices, which begin with a digit. */
  function VcapServices(services: Value): (r: Result<seq<Value>>)
    ensures services.Obj? ==> r == CloudantServices(services.props)
    ensures !services.Obj? ==> r == Ok([])
  {
    NoIndexIsCloudantKey(ForInEntries(services), services);
    CloudantServices(ForInEntries(services))
  }

  lemma NoIndexIsCloudantKey(ps: Props, services: Value)
    requires ps == ForInEntries(services)
    ensures !services.Obj? ==> CloudantServices(ps) == Ok([])
  {
    if !services.Obj? {
      forall i | 0 <= i < |ps| ensures !IsCloudantKey(ps[i].0) {
        if services.Arr? || services.Bytes? || services.Str? {
          var k := NatToString(i);
          assert ps[i].0 == k;
          assert IsDigit(k[0]) && LowerChar(k[0]) == k[0];
          if |k| >= |ServicePrefix| {
            assert k[..|ServicePrefix|][0] == k[0];
          }
        }
      }
      NoKeyMatches(ps);
    }
  }

  lemma {:induction false} NoKeyMatches(ps: Props)
    requires forall i :: 0 <= i < |ps| ==> !IsCloudantKey(ps[i].0)
    ensures CloudantServices(ps) == Ok([])
  {
    if |ps| > 0 {
      assert forall i :: 0 <= i < |ps| - 1 ==> ps[1..][i].0 == ps[i + 1].0;
      NoKeyMatches(ps[1..]);
    }
  }

  // ---------------------------------------------------------------
  // What the filter promises
  // ---------------------------------------------------------------

  /** The keys that take part, with their lists. */
  function MatchingEntries(ps: Props): (m: Props)
    ensures |m| <= |ps|
    ensures forall i :: 0 <= i < |m| ==> IsCloudantKey(m[i].0) && m[i] in ps
  {
    if |ps| == 0 then []
    else if IsCloudantKey(ps[0].0) then [ps[0]] + MatchingEntries(ps[1..])
    else MatchingEntries(ps[1..])
  }

  /** The number of services bound under the Cloudant keys. */
  function BoundCount(ps: Props): nat {
    if |ps| == 0 then 0
    else if IsCloudantKey(ps[0].0) && ps[0].1.Arr? then |ps[0].1.elems| + BoundCount(ps[1..])
    else BoundCount(ps[1..])
  }

  /** Two pieces of the loop run one after the other: the first failure
      wins, otherwise the lists are concatenated. */
  function Combine(x: Result<seq<Value>>, y: Result<seq<Value>>): Result<seq<Value>> {
    if x.Throw? then x else if y.Throw? then y else Ok(x.value + y.value)
  }

  lemma CombineAssoc(x: Result<seq<Value>>, y: Result<seq<Value>>, z: Result<seq<Value>>)
    ensures Combine(Combine(x, y), z) == Combine(x, Combine(y, z))
  {
    if x.Ok? && y.Ok? && z.Ok? {
      assert (x.value + y.value) + z.value == x.value + (y.value + z.value);
    }
  }

  /** What one key contributes. */
  function EntryServices(entry: (string, Value)): Result<seq<Value>> {
    if IsCloudantKey(entry.0) then MapSummaries(entry.1) else Ok([])
  }

  lemma CloudantServicesStep(ps: Props)
    requires |ps| > 0
    ensures CloudantServices(ps) == Combine(EntryServices(ps[0]), CloudantServices(ps[1..]))
  {
    if !IsCloudantKey(ps[0].0) && CloudantServices(ps[1..]).Ok? {
      assert [] + CloudantServices(ps[1..]).value == CloudantServices(ps[1..]).value;
    }
  }

  /** The loop over two runs of keys is the loop over the first run
      followed by the loop over the second. */
  lemma {:induction false} CloudantServicesAppend(a: Props, b: Props)
    ensures CloudantServices(a + b) == Combine(CloudantServices(a), CloudantServices(b))
  {
    if |a| == 0 {
      assert a + b == b;
      if CloudantServices(b).Ok? {
        assert [] + CloudantServices(b).value == CloudantServices(b).value;
      }
    } else {
      assert (a + b)[0] == a[0] && (a + b)[1..] == a[1..] + b;
      CloudantServicesStep(a + b);
      CloudantServicesAppend(a[1..], b);
      CloudantServicesStep(a);
      CombineAssoc(EntryServices(a[0]), CloudantServices(a[1..]), CloudantServices(b));
    }
  }

  /** Keys that do not match contribute nothing: the result is that of the
      matching entries alone. */
  lemma {:induction false} OnlyMatchingKeysCount(ps: Props)
    ensures CloudantServices(ps) == CloudantServices(MatchingEntries(ps))
  {
    if |ps| > 0 {
      OnlyMatchingKeysCount(ps[1..]);
      if IsCloudantKey(ps[0].0) {
        var m := [ps[0]] + MatchingEntries(ps[1..]);
        assert m[0] == ps[0] && m[1..] == MatchingEntries(ps[1..]);
      }
    }
  }

  /** When the request succeeds it lists one entry per bound Cloudant
      service: the lengths of the matching lists add up. */
  lemma {:induction false} OneEntryPerBoundService(ps: Props)
    requires CloudantServices(ps).Ok?
    ensures |CloudantServices(ps).value| == BoundCount(ps)
  {
    if |ps| > 0 {
      OneEntryPerBoundService(ps[1..]);
    }
  }

  /** Every listed entry is the projection of a service bound under a
      matching key. */
  lemma {:induction false} ListedEntryHasSource(ps: Props, j: nat)
      returns (i: nat, e: nat)
    requires CloudantServices(ps).Ok? && j < |CloudantServices(ps).value|
    ensures i < |ps| && IsCloudantKey(ps[i].0) && ps[i].1.Arr? && e < |ps[i].1.elems|
    ensures Summary(ps[i].1.elems[e]) == Ok(CloudantServices(ps).value[j])
  {
    if IsCloudantKey(ps[0].0) {
      var here := MapSummaries(ps[0].1).value;
      if j < |here| {
        i, e := 0, j;
      } else {
        var i' ;
        i', e := ListedEntryHasSource(ps[1..], j - |here|);
        i := i' + 1;
      }
    } else {
      var i';
      i', e := ListedEntryHasSource(ps[1..], j);
      i := i' + 1;
    }
  }

  /** A single matching key with a list of well-formed services lists them
      all, in order; a key that merely contains "cloudant" further in is
      ignored, and the case of the prefix does not matter. */
  lemma FilterExample(a: Props, b: Props)
    ensures CloudantServices([("CloudantNoSQLDB", Arr([Obj(a), Obj(b)])),
                              ("my-cloudant", Arr([Null]))])
            == Ok([Obj([("name", Field(a, "name")), ("label", Field(a, "label"))]),
                   Obj([("name", Field(b, "name")), ("label", Field(b, "label"))])])
  {
    var ps: Props := [("CloudantNoSQLDB", Arr([Obj(a), Obj(b)])), ("my-cloudant", Arr([Null]))];
    assert IsCloudantKey(ps[0].0);
    assert !IsCloudantKey(ps[1].0) by {
      assert ps[1].0[..|ServicePrefix|][0] == 'm';
    }
    assert ps[1..][1..] == [];
    assert CloudantServices(ps[1..]) == Ok([]);
    var es := [Obj(a), Obj(b)];
    assert es[1..][1..] == [];
    var s1 := Obj([("name", Field(a, "name")), ("label", Field(a, "label"))]);
    var s2 := Obj([("name", Field(b, "name")), ("label", Field(b, "label"))]);
    assert Summary(Obj(a)) == Ok(s1) && Summary(Obj(b)) == Ok(s2);
    assert !LooseEqualsNull(es[0]) && !LooseEqualsNull(es[1]);
    var r := SummarizeAll(es);
    assert r.Ok? && Summary(es[0]) == Ok(r.value[0]) && Summary(es[1]) == Ok(r.value[1]);
    assert r.value == [s1, s2];
    assert ps[0].1 == Arr(es) && MapSummaries(ps[0].1) == Ok([s1, s2]);
    assert [s1, s2] + [] == [s1, s2];
  }

  /** A service entry that is `null` under a matching key fails the whole
      request. */
  lemma NullServiceFails(ps: Props, i: nat, e: nat)
    requires i < |ps| && IsCloudantKey(ps[i].0) && ps[i].1.Arr? && e < |ps[i].1.elems|
    requires ps[i].1.elems[e].Null?
    ensures CloudantServices(ps).Throw?
  {
    var pre, post := ps[..i], ps[i..];
    assert ps == pre + post;
    CloudantServicesAppend(pre, post);
    assert !SummarizeAll(post[0].1.elems).Ok?;
  }

  // ---------------------------------------------------------------
  // When the list is computed
  // ---------------------------------------------------------------

  /** The current plugin answers every request from the services bound at
      that moment. */
  function VcapResponse(servicesNow: Value): Result<seq<Value>> {
    VcapServices(servicesNow)
  }

  /** The legacy plugin computes the list while it is being loaded; a
      failure there stops the whole plugin from loading, so none of its
      node types is registered. */
  datatype LegacyPlugin = LegacyPlugin(vcap: seq<Value>)

  function LoadLegacy(servicesAtLoad: Value): (r: Result<LegacyPlugin>)
    ensures r.Ok? <==> VcapServices(servicesAtLoad).Ok?
  {
    var list :- VcapServices(servicesAtLoad);
    Ok(LegacyPlugin(list))
  }

  /** The legacy endpoint answers every request with the list it kept,
      whatever is bound when the request arrives. */
  function LegacyVcapResponse(plugin: LegacyPlugin, servicesNow: Value): seq<Value> {
    plugin.vcap
  }

  /** The legacy endpoint's answer is fixed at load time, whatever is bound
      later; the current endpoint follows the bindings. The two agree on a
      request exactly when the bindings at that moment give the list they
      gave at load time. */
  lemma LoadTimeAgainstRequestTime(servicesAtLoad: Value, servicesNow: Value)
    ensures LoadLegacy(servicesAtLoad).Ok? ==>
              LegacyVcapResponse(LoadLegacy(servicesAtLoad).value, servicesNow) == VcapServices(servicesAtLoad).value
    ensures LoadLegacy(servicesAtLoad).Ok? && VcapResponse(servicesNow).Ok? ==>
              (LegacyVcapResponse(LoadLegacy(servicesAtLoad).value, servicesNow) == VcapResponse(servicesNow).value
               <==> VcapServices(servicesNow) == VcapServices(servicesAtLoad))
  {
  }

  /** A Cloudant service bound after loading shows up in the current
      endpoint's answer but not in the legacy one's. */
  lemma LateBindingExample(d: Props)
    ensures var now := Obj([("cloudantNoSQLDB", Arr([Obj(d)]))]);
            && LoadLegacy(Obj([])) == Ok(LegacyPlugin([]))
            && LegacyVcapResponse(LoadLegacy(Obj([])).value, now) == []
            && VcapResponse(now) == Ok([Obj([("name", Field(d, "name")), ("label", Field(d, "label"))])])
  {
    var ps: Props := [("cloudantNoSQLDB", Arr([Obj(d)]))];
    var summary := Obj([("name", Field(d, "name")), ("label", Field(d, "label"))]);
    assert IsCloudantKey(ps[0].0);
    assert [Obj(d)][1..] == [] && ps[1..] == [];
    var all := SummarizeAll([Obj(d)]);
    assert !LooseEqualsNull([Obj(d)][0]);
    assert all.Ok? && Summary([Obj(d)][0]) == Ok(all.value[0]);
    assert all.value == [summary];
    assert CloudantServices(ps) == Ok([summary] + []);
    assert [summary] + [] == [summary];
  }

  // ---------------------------------------------------------------
  // Node registration
  // ---------------------------------------------------------------

  /** The constructors the two generations register. */
  datatype Constructor =
    | ConfigNode
    | ModifyNode
    | QueryNode
    | AttachmentNode
    | LegacyConfigNode
    | LegacyOutNode
    | LegacyInNode

  /** A registered node type, with the credential fields the runtime keeps
      for it (name, and whether the editor hides its value). */
  datatype Registration = Registration(typeName: string, ctor: Constructor, credentials: seq<(string, bool)>)

  const Registrations: seq<Registration> := [
    Registration("cloudant", ConfigNode, [("pass", true), ("username", false)]),
    Registration("cloudant out", ModifyNode, []),
    Registration("cloudant mid out", ModifyNode, []),
    Registration("cloudant in", QueryNode, []),
    Registration("cloudant attachment in", AttachmentNode, [])
  ]

  /** The legacy file keeps its credentials itself, through its own
      endpoints, so its configuration node declares none. */
  const LegacyRegistrations: seq<Registration> := [
    Registration("cloudant", LegacyConfigNode, []),
    Registration("cloudant out", LegacyOutNode, []),
    Registration("cloudant in", LegacyInNode, [])
  ]

  /** The constructor a flow's node of type `typeName` is built with. */
  function ConstructorFor(table: seq<Registration>, typeName: string): (r: Option<Constructor>)
    ensures r.Some? <==> exists i :: 0 <= i < |table| && table[i].typeName == typeName
    ensures r.Some? ==> exists i :: 0 <= i < |table| && table[i].typeName == typeName && table[i].ctor == r.value
  {
    if |table| == 0 then None
    else if table[0].typeName == typeName then Some(table[0].ctor)
    else
      var r := ConstructorFor(table[1..], typeName);
      assert forall i :: 1 <= i < |table| ==> table[i] == table[1..][i - 1];
      r
  }

  predicate DistinctTypeNames(table: seq<Registration>) {
    forall i, j :: 0 <= i < j < |table| ==> table[i].typeName != table[j].typeName
  }

  /** Every type name is registered once, in each generation. */
  lemma TypeNamesDistinct()
    ensures DistinctTypeNames(Registrations) && DistinctTypeNames(LegacyRegistrations)
  {
    assert |Registrations[0].typeName| == 8 && |Registrations[1].typeName| == 12;
    assert |Registrations[2].typeName| == 16 && |Registrations[3].typeName| == 11;
    assert |Registrations[4].typeName| == 22;
    assert |LegacyRegistrations[0].typeName| == 8 && |LegacyRegistrations[1].typeName| == 12;
    assert |LegacyRegistrations[2].typeName| == 11;
  }

  /** Both output types build the same node. */
  lemma OutputTypesShareConstructor()
    ensures ConstructorFor(Registrations, "cloudant out") == Some(ModifyNode)
    ensures ConstructorFor(Registrations, "cloudant mid out") == Some(ModifyNode)
  {
    assert Registrations[1..][0].typeName == "cloudant out";
    assert |Registrations[0].typeName| != |"cloudant mid out"|;
    assert |Registrations[1].typeName| != |"cloudant mid out"|;
    assert Registrations[1..][1..][0].typeName == "cloudant mid out";
  }

  /** A flow written for the legacy plugin finds each of its node types
      in the current one; the attachment node is new. */
  lemma LegacyTypesStillRegistered()
    ensures forall i :: 0 <= i < |LegacyRegistrations| ==>
              ConstructorFor(Registrations, LegacyRegistrations[i].typeName).Some?
    ensures ConstructorFor(LegacyRegistrations, "cloudant attachment in").None?
  {
    assert Registrations[0].typeName == LegacyRegistrations[0].typeName;
    assert Registrations[1].typeName == LegacyRegistrations[1].typeName;
    assert Registrations[3].typeName == LegacyRegistrations[2].typeName;
    var t := "cloudant attachment in";
    assert |LegacyRegistrations[0].typeName| != |t| && |LegacyRegistrations[1].typeName| != |t|
           && |LegacyRegistrations[2].typeName| != |t|;
  }
}
