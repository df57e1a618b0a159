/** Setup-owned edits of the authored guardrail document. */
module GuardrailDocument {
  import opened Wrappers

  /** A stable ID determines its prefix and subject; no other authored text equals it. */
  datatype Text = Plain(text: string) | StableId(prefix: string, organization: string, identity: string)

  datatype Json = Null | Bool(b: bool) | Num(n: real) | Str(s: Text) | Arr(items: seq<Json>) | Obj(fields: map<string, Json>)

  type Item = map<string, Json>

  datatype Error = Malformed | AmbiguousPolicy | CustomPolicy | ForeignAdapter

  datatype Result<+T> = Ok(value: T) | Err(error: Error) {
    predicate IsFailure() { Err? }
    function PropagateFailure<U>(): Result<U>
      requires Err?
    {
      Err(error)
    }
    function Extract(): T
      requires Ok?
    {
      value
    }
  }

  datatype Pair = Pair(organization: string, identity: string)

  datatype Setup = Setup(pair: Pair, classifierUrl: string, bearerEnv: Option<string>, replaceCustom: bool)

  function AdapterId(pair: Pair): Text { StableId("setup-http-json", pair.organization, pair.identity) }

  function PolicyId(pair: Pair): Text { StableId("setup-standard", pair.organization, pair.identity) }

  const SETUP_ADAPTER_KEYS := {"adapter_id", "kind", "url", "bearer_env", "max_response_bytes"}
  const SETUP_POLICY_KEYS := {"policy_id", "organization_id", "identity_id", "protected", "preset", "timeout_ms", "timeouts",
                              "capability_adapters", "max_request_bytes", "max_response_bytes"}
  const STANDARD_TIMEOUT_MS := Num(250.0)
  const MAX_BODY_BYTES := Num(1048576.0)
  const HTTP_JSON_MAX_BYTES := Num(65536.0)
  const CAPABILITIES := ["pii", "secret_leakage", "prompt_injection", "content_safety"]

  function Get(item: Item, key: string, default: Json): Json {
    if key in item then item[key] else default
  }

  function Objects(items: seq<Json>): (r: Result<seq<Item>>)
    ensures if r.Err? then r.error == Malformed && exists k :: 0 <= k < |items| && !items[k].Obj?
            else |r.value| == |items| && forall k :: 0 <= k < |items| ==> items[k] == Obj(r.value[k])
  {
    if items == [] then Ok([])
    else if !items[0].Obj? then Err(Malformed)
    else
      var rest :- Objects(items[1..]);
      Ok([items[0].fields] + rest)
  }

  /** One authored object list; absent, empty and null all read as empty. */
  function ObjectList(document: Item, key: string): (r: Result<seq<Item>>)
    ensures r.Err? ==> r.error == Malformed
  {
    var raw := Get(document, key, Arr([]));
    if raw == Arr([]) || raw.Null? then Ok([])
    else if !raw.Arr? then Err(Malformed)
    else Objects(raw.items)
  }

  predicate SameIdentity(item: Item, pair: Pair) {
    && Get(item, "organization_id", Null) == Str(Plain(pair.organization))
    && Get(item, "identity_id", Null) == Str(Plain(pair.identity))
  }

  predicate HasId(item: Item, id: Text) { Get(item, "adapter_id", Null) == Str(id) }

  function Assigned(pair: Pair): Item -> bool { item => SameIdentity(item, pair) }

  function PolicyFor(policies: seq<Item>, pair: Pair): Result<Option<Item>> {
    var matches := Filter(Assigned(pair), policies);
    if |matches| > 1 then Err(AmbiguousPolicy) else Ok(if matches == [] then None else Some(matches[0]))
  }

  /** The first adapter with this ID. */
  function AdapterFor(adapters: seq<Item>, id: Text): (r: Option<Item>)
    ensures r.Some? ==> r.value in adapters && HasId(r.value, id)
    ensures r.None? ==> forall item :: item in adapters ==> !HasId(item, id)
  {
    if adapters == [] then None else if HasId(adapters[0], id) then Some(adapters[0]) else AdapterFor(adapters[1..], id)
  }

  function Bindings(id: Text): map<string, Json> {
    map capability | capability in CAPABILITIES :: Str(id)
  }

  predicate SetupOwnedPolicy(item: Item, pair: Pair) {
    && item.Keys <= SETUP_POLICY_KEYS
    && Get(item, "policy_id", Null) == Str(PolicyId(pair))
    && SameIdentity(item, pair)
    && Get(item, "protected", Null) == Bool(true)
    && Get(item, "preset", Null) == Str(Plain("standard"))
    && Get(item, "timeout_ms", STANDARD_TIMEOUT_MS) == STANDARD_TIMEOUT_MS
    && Get(item, "timeouts", Obj(map[])) in {Obj(map[]), Null}
    && Get(item, "max_request_bytes", MAX_BODY_BYTES) == MAX_BODY_BYTES
    && Get(item, "max_response_bytes", MAX_BODY_BYTES) == MAX_BODY_BYTES
    && Get(item, "capability_adapters", Null) == Obj(Bindings(AdapterId(pair)))
  }

  predicate SetupOwnedAdapter(item: Item, id: Text) {
    && item.Keys <= SETUP_ADAPTER_KEYS
    && HasId(item, id)
    && Get(item, "kind", Null) == Str(Plain("http_json"))
    && Get(item, "url", Null).Str?
    && (Get(item, "bearer_env", Null).Null? || Get(item, "bearer_env", Null).Str?)
    && Get(item, "max_response_bytes", HTTP_JSON_MAX_BYTES) == HTTP_JSON_MAX_BYTES
  }

  function OwnedAdapter(setup: Setup): Item {
    map["adapter_id" := Str(AdapterId(setup.pair)), "kind" := Str(Plain("http_json")), "url" := Str(Plain(setup.classifierUrl))]
    + if setup.bearerEnv.Some? then map["bearer_env" := Str(Plain(setup.bearerEnv.value))] else map[]
  }

  function OwnedPolicy(pair: Pair): Item {
    map["policy_id" := Str(PolicyId(pair)),
        "organization_id" := Str(Plain(pair.organization)),
        "identity_id" := Str(Plain(pair.identity)),
        "protected" := Bool(true),
        "preset" := Str(Plain("standard")),
        "timeout_ms" := STANDARD_TIMEOUT_MS,
        "capability_adapters" := Obj(Bindings(AdapterId(pair)))]
  }

  function Boxed(items: seq<Item>): (r: seq<Json>)
    ensures |r| == |items| && forall k :: 0 <= k < |r| ==> r[k] == Obj(items[k])
  {
    seq(|items|, k requires 0 <= k < |items| => Obj(items[k]))
  }

  /** Replaces only the two lists. */
  function WithLists(document: Item, adapters: seq<Item>, policies: seq<Item>): Item {
    document["adapters" := Arr(Boxed(adapters))]["policies" := Arr(Boxed(policies))]
  }

  function Elsewhere(pair: Pair): Item -> bool { item => !SameIdentity(item, pair) }

  function NotNamed(id: Text): Item -> bool { item => !HasId(item, id) }

  function NotOwned(pair: Pair): Item -> bool { item => !SetupOwnedPolicy(item, pair) }

  function Remaining(id: Text, referenced: bool): Item -> bool { item => !SetupOwnedAdapter(item, id) || referenced }

  /** Inserts or updates the pair's adapter and standard policy. */
  function EnableStandard(document: Item, setup: Setup): Result<Item> {
    var adapters :- ObjectList(document, "adapters");
    var policies :- ObjectList(document, "policies");
    var existing :- PolicyFor(policies, setup.pair);
    if existing.Some? && !SetupOwnedPolicy(existing.value, setup.pair) && !setup.replaceCustom then Err(CustomPolicy) else
    var id := AdapterId(setup.pair);
    var held := AdapterFor(adapters, id);
    if held.Some? && !SetupOwnedAdapter(held.value, id) then Err(ForeignAdapter) else
    Ok(WithLists(document,
                 Filter(NotNamed(id), adapters) + [OwnedAdapter(setup)],
                 Filter(Elsewhere(setup.pair), policies) + [OwnedPolicy(setup.pair)]))
  }

  /** The adapter IDs bound by capability or by manual check. */
  predicate Binds(policy: Item, id: Text) {
    var bindings, checks := Get(policy, "capability_adapters", Null), Get(policy, "checks", Null);
    || (bindings.Obj? && exists key | key in bindings.fields :: bindings.fields[key] == Str(id))
    || (checks.Arr? && exists check | check in checks.items :: check.Obj? && HasId(check.fields, id))
  }

  predicate Referenced(policies: seq<Item>, id: Text) {
    exists k | 0 <= k < |policies| :: Binds(policies[k], id)
  }

  /** Removes the pair's setup-owned policy, and its adapter unless a remaining policy still binds it. */
  function DisableOwned(document: Item, pair: Pair): Result<Item> {
    var policies :- ObjectList(document, "policies");
    var kept := Filter(NotOwned(pair), policies);
    var adapters :- ObjectList(document, "adapters");
    Ok(WithLists(document, Filter(Remaining(AdapterId(pair), Referenced(kept, AdapterId(pair))), adapters), kept))
  }

  datatype Mode = Off | Standard(url: Json, bearer: Json) | Custom

  /** How setup can represent the pair's current policy. */
  function Inspect(document: Item, pair: Pair): Result<Mode> {
    var policies :- ObjectList(document, "policies");
    var policy :- PolicyFor(policies, pair);
    if policy.None? then Ok(Off) else
    var adapters :- ObjectList(document, "adapters");
    var adapter := AdapterFor(adapters, AdapterId(pair));
    if adapter.Some? && SetupOwnedPolicy(policy.value, pair) && SetupOwnedAdapter(adapter.value, AdapterId(pair))
    then Ok(Standard(Get(adapter.value, "url", Null), Get(adapter.value, "bearer_env", Null)))
    else Ok(Custom)
  }

  lemma {:induction false} UnboxBoxed(items: seq<Item>)
    ensures Objects(Boxed(items)) == Ok(items)
  {
    if items != [] {
      var boxed := Boxed(items);
      assert boxed[1..] == Boxed(items[1..]);
      UnboxBoxed(items[1..]);
      assert Objects(boxed[1..]) == Ok(items[1..]) && boxed[0].fields == items[0];
      assert [items[0]] + items[1..] == items;
    }
  }

  /** A list is read from an absent or null field as empty, and otherwise exactly from an array of objects. */
  lemma ObjectListMeans(document: Item, key: string, items: seq<Item>)
    ensures ObjectList(document, key) == Ok(items)
            <==> (items == [] && (key !in document || document[key] == Null)) || (key in document && document[key] == Arr(Boxed(items)))
  {
    if key in document && document[key] == Arr(Boxed(items)) { UnboxBoxed(items); }
    if key in document && document[key].Arr? && ObjectList(document, key).Ok? {
      assert document[key].items == Boxed(ObjectList(document, key).value);
    }
  }

  /** The values a field of a policy may have for setup to own it. */
  ghost function OwnedPolicyValues(pair: Pair, key: string): set<Json> {
    match key
    case "policy_id" => {Str(StableId("setup-standard", pair.organization, pair.identity))}
    case "organization_id" => {Str(Plain(pair.organization))}
    case "identity_id" => {Str(Plain(pair.identity))}
    case "protected" => {Bool(true)}
    case "preset" => {Str(Plain("standard"))}
    case "timeout_ms" => {Num(250.0)}
    case "timeouts" => {Obj(map[]), Null}
    case "capability_adapters" => {Obj(Bindings(StableId("setup-http-json", pair.organization, pair.identity)))}
    case "max_request_bytes" => {Num(1048576.0)}
    case "max_response_bytes" => {Num(1048576.0)}
    case _ => {}
  }

  /** Setup owns exactly the policies that have the six fields it always writes and no field with a value it would not write. */
  lemma OwnedPolicyMeans(item: Item, pair: Pair)
    ensures SetupOwnedPolicy(item, pair)
            <==> && {"policy_id", "organization_id", "identity_id", "protected", "preset", "capability_adapters"} <= item.Keys
                 && forall key :: key in item ==> item[key] in OwnedPolicyValues(pair, key)
  {
    hide Bindings;
    if SetupOwnedPolicy(item, pair) {
      forall key | key in item ensures item[key] in OwnedPolicyValues(pair, key) { assert key in SETUP_POLICY_KEYS; }
    }
  }

  /** The values a field of an adapter may have for setup to own it. */
  ghost predicate OwnedAdapterValue(id: Text, key: string, value: Json) {
    match key
    case "adapter_id" => value == Str(id)
    case "kind" => value == Str(Plain("http_json"))
    case "url" => value.Str?
    case "bearer_env" => value.Null? || value.Str?
    case "max_response_bytes" => value == Num(65536.0)
    case _ => false
  }

  lemma OwnedAdapterMeans(item: Item, id: Text)
    ensures SetupOwnedAdapter(item, id)
            <==> {"adapter_id", "kind", "url"} <= item.Keys && forall key :: key in item ==> OwnedAdapterValue(id, key, item[key])
  {
    if SetupOwnedAdapter(item, id) {
      forall key | key in item ensures OwnedAdapterValue(id, key, item[key]) { assert key in SETUP_ADAPTER_KEYS; }
    }
  }

  /** A policy names an adapter as a capability's, or as that of one of its checks. */
  lemma BindsMeans(policy: Item, id: Text)
    ensures Binds(policy, id)
            <==> || ("capability_adapters" in policy && policy["capability_adapters"].Obj?
                     && exists capability :: capability in policy["capability_adapters"].fields
                                             && policy["capability_adapters"].fields[capability] == Str(id))
                 || ("checks" in policy && policy["checks"].Arr?
                     && exists k :: 0 <= k < |policy["checks"].items| && policy["checks"].items[k].Obj?
                                    && "adapter_id" in policy["checks"].items[k].fields
                                    && policy["checks"].items[k].fields["adapter_id"] == Str(id))
  {
    if "capability_adapters" in policy && policy["capability_adapters"].Obj? {
      var bindings := Get(policy, "capability_adapters", Null);
      if capability :| capability in policy["capability_adapters"].fields && policy["capability_adapters"].fields[capability] == Str(id) {
        assert capability in bindings.fields && bindings.fields[capability] == Str(id);
      }
    }
    if "checks" in policy && policy["checks"].Arr? {
      var items := policy["checks"].items;
      if check :| check in items && check.Obj? && HasId(check.fields, id) {
        var k :| 0 <= k < |items| && items[k] == check;
        assert "adapter_id" in items[k].fields && items[k].fields["adapter_id"] == Str(id);
      }
      if k :| 0 <= k < |items| && items[k].Obj? && "adapter_id" in items[k].fields && items[k].fields["adapter_id"] == Str(id) {
        assert items[k] in items && HasId(items[k].fields, id);
      }
    }
  }

  /** The lists written are the lists read back, and every other field is untouched. */
  lemma ReadsBack(document: Item, adapters: seq<Item>, policies: seq<Item>)
    ensures var d := WithLists(document, adapters, policies);
            && ObjectList(d, "adapters") == Ok(adapters) && ObjectList(d, "policies") == Ok(policies)
            && forall key :: key != "adapters" && key != "policies" ==> Get(d, key, Null) == Get(document, key, Null) && (key in d <==> key in document)
  {
    UnboxBoxed(adapters);
    UnboxBoxed(policies);
  }

  lemma OwnedAdapterIsOwned(setup: Setup)
    ensures SetupOwnedAdapter(OwnedAdapter(setup), AdapterId(setup.pair))
    ensures Get(OwnedAdapter(setup), "url", Null) == Str(Plain(setup.classifierUrl))
    ensures Get(OwnedAdapter(setup), "bearer_env", Null) == if setup.bearerEnv.Some? then Str(Plain(setup.bearerEnv.value)) else Null
  {
    hide Bindings, SetupOwnedPolicy, OwnedPolicy;
    var base: Item := map["adapter_id" := Str(AdapterId(setup.pair)), "kind" := Str(Plain("http_json")), "url" := Str(Plain(setup.classifierUrl))];
    assert base.Keys == {"adapter_id", "kind", "url"};
  }

  lemma OwnedPolicyIsOwned(pair: Pair)
    ensures SetupOwnedPolicy(OwnedPolicy(pair), pair) && SameIdentity(OwnedPolicy(pair), pair)
  {
    hide Bindings, SetupOwnedAdapter, OwnedAdapter;
    var p := OwnedPolicy(pair);
    assert p.Keys == {"policy_id", "organization_id", "identity_id", "protected", "preset", "timeout_ms", "capability_adapters"};
  }

  ghost predicate Readable(document: Item) {
    ObjectList(document, "adapters").Ok? && ObjectList(document, "policies").Ok?
  }

  ghost function Adapters(document: Item): seq<Item>
    requires Readable(document)
  {
    ObjectList(document, "adapters").value
  }

  ghost function Policies(document: Item): seq<Item>
    requires Readable(document)
  {
    ObjectList(document, "policies").value
  }

  ghost predicate SameOtherFields(left: Item, right: Item) {
    forall key :: key != "adapters" && key != "policies" ==>
      (key in left <==> key in right) && Get(left, key, Null) == Get(right, key, Null)
  }

  lemma WriteTwice(document: Item, adapters: seq<Item>, policies: seq<Item>)
    ensures WithLists(WithLists(document, adapters, policies), adapters, policies) == WithLists(document, adapters, policies)
  {
  }

  lemma EnabledLists(document: Item, setup: Setup)
    requires EnableStandard(document, setup).Ok?
    ensures Readable(document) && Readable(EnableStandard(document, setup).value)
    ensures var d := EnableStandard(document, setup).value;
            && Adapters(d) == Filter(NotNamed(AdapterId(setup.pair)), Adapters(document)) + [OwnedAdapter(setup)]
            && Policies(d) == Filter(Elsewhere(setup.pair), Policies(document)) + [OwnedPolicy(setup.pair)]
            && SameOtherFields(d, document) && d == WithLists(document, Adapters(d), Policies(d))
  {
    hide SetupOwnedPolicy, SetupOwnedAdapter, OwnedPolicy, OwnedAdapter, PolicyFor, AdapterFor;
    ReadsBack(document, Filter(NotNamed(AdapterId(setup.pair)), Adapters(document)) + [OwnedAdapter(setup)],
              Filter(Elsewhere(setup.pair), Policies(document)) + [OwnedPolicy(setup.pair)]);
  }

  /** Two policies of the pair. */
  ghost predicate TwoPolicies(policies: seq<Item>, pair: Pair) {
    exists j, k :: 0 <= j < k < |policies| && SameIdentity(policies[j], pair) && SameIdentity(policies[k], pair)
  }

  /** A policy of the pair that setup did not author. */
  ghost predicate CustomPolicyIn(policies: seq<Item>, pair: Pair) {
    exists item :: item in policies && SameIdentity(item, pair) && !SetupOwnedPolicy(item, pair)
  }

  /** The first adapter under this ID is not one setup authored. */
  ghost predicate ForeignFirst(adapters: seq<Item>, id: Text) {
    exists k :: && 0 <= k < |adapters| && HasId(adapters[k], id) && !SetupOwnedAdapter(adapters[k], id)
                && forall j :: 0 <= j < k ==> !HasId(adapters[j], id)
  }

  /** Why enabling is refused. */
  ghost predicate EnableRefused(document: Item, setup: Setup, error: Error) {
    match error
    case Malformed => !Readable(document)
    case AmbiguousPolicy => Readable(document) && TwoPolicies(Policies(document), setup.pair)
    case CustomPolicy =>
      && Readable(document) && !TwoPolicies(Policies(document), setup.pair)
      && CustomPolicyIn(Policies(document), setup.pair) && !setup.replaceCustom
    case ForeignAdapter =>
      && Readable(document) && !TwoPolicies(Policies(document), setup.pair)
      && (CustomPolicyIn(Policies(document), setup.pair) ==> setup.replaceCustom)
      && ForeignFirst(Adapters(document), AdapterId(setup.pair))
  }

  lemma {:induction false} ForeignIsFirst(adapters: seq<Item>, id: Text)
    ensures ForeignFirst(adapters, id) <==> AdapterFor(adapters, id).Some? && !SetupOwnedAdapter(AdapterFor(adapters, id).value, id)
  {
    hide HasId, SetupOwnedAdapter;
    if adapters != [] && !HasId(adapters[0], id) {
      var rest := adapters[1..];
      ForeignIsFirst(rest, id);
      if ForeignFirst(adapters, id) {
        var k :| && 0 <= k < |adapters| && HasId(adapters[k], id) && !SetupOwnedAdapter(adapters[k], id)
                 && forall j :: 0 <= j < k ==> !HasId(adapters[j], id);
        assert rest[k - 1] == adapters[k];
        forall j | 0 <= j < k - 1 ensures !HasId(rest[j], id) { assert rest[j] == adapters[j + 1]; }
      }
      if ForeignFirst(rest, id) {
        var k :| && 0 <= k < |rest| && HasId(rest[k], id) && !SetupOwnedAdapter(rest[k], id)
                 && forall j :: 0 <= j < k ==> !HasId(rest[j], id);
        assert adapters[k + 1] == rest[k];
        forall j | 0 <= j < k + 1 ensures !HasId(adapters[j], id) { if j > 0 { assert adapters[j] == rest[j - 1]; } }
      }
    } else if adapters != [] {
      assert HasId(adapters[0], id);
    }
  }

  lemma PolicyMatches(policies: seq<Item>, pair: Pair)
    ensures var existing := PolicyFor(policies, pair);
            if TwoPolicies(policies, pair) then existing == Err(AmbiguousPolicy)
            else existing.Ok? && (CustomPolicyIn(policies, pair) <==> existing.value.Some? && !SetupOwnedPolicy(existing.value.value, pair))
  {
    hide SameIdentity, SetupOwnedPolicy;
    var matches := Filter(Assigned(pair), policies);
    FilterKeepsTwo(Assigned(pair), policies);
    if j, k :| 0 <= j < k < |policies| && SameIdentity(policies[j], pair) && SameIdentity(policies[k], pair) {
      assert Assigned(pair)(policies[j]) && Assigned(pair)(policies[k]);
    } else {
      if matches != [] { assert matches[0] in matches; }
      if item :| item in policies && SameIdentity(item, pair) && !SetupOwnedPolicy(item, pair) { assert item in matches; }
    }
  }

  /** Enabling is refused exactly for an unreadable list, two policies of the pair, a custom policy without leave to replace it, or a first
      adapter under the setup ID that setup did not author, in this order. */
  lemma EnableRefusedExactly(document: Item, setup: Setup, error: Error)
    ensures EnableStandard(document, setup) == Err(error) <==> EnableRefused(document, setup, error)
  {
    if Readable(document) {
      PolicyMatches(Policies(document), setup.pair);
      ForeignIsFirst(Adapters(document), AdapterId(setup.pair));
    }
    hide SameIdentity, SetupOwnedPolicy, SetupOwnedAdapter, HasId, AdapterFor, PolicyFor, ObjectList, ForeignFirst, CustomPolicyIn, TwoPolicies;
  }

  lemma {:induction false} NoneFiltered<T(!new)>(keep: T -> bool, s: seq<T>)
    requires forall x :: x in s ==> !keep(x)
    ensures Filter(keep, s) == []
  {
    if s != [] { NoneFiltered(keep, s[1..]); }
  }

  lemma {:induction false} FirstMatch(adapters: seq<Item>, last: Item, id: Text)
    requires HasId(last, id) && forall item :: item in adapters ==> !HasId(item, id)
    ensures AdapterFor(adapters + [last], id) == Some(last)
  {
    if adapters == [] {
      assert adapters + [last] == [last];
    } else {
      assert (adapters + [last])[1..] == adapters[1..] + [last];
      FirstMatch(adapters[1..], last, id);
    }
  }

  lemma OnlyMatch(policies: seq<Item>, last: Item, pair: Pair)
    requires SameIdentity(last, pair) && forall item :: item in policies ==> !SameIdentity(item, pair)
    ensures PolicyFor(policies + [last], pair) == Ok(Some(last))
  {
    var same := Assigned(pair);
    FilterConcat(same, policies, [last]);
    NoneFiltered(same, policies);
    assert Filter(same, [last]) == [last];
  }

  /** Enabling always lands as the standard pack, with the planned endpoint. */
  lemma EnableLandsAsStandard(document: Item, setup: Setup)
    requires EnableStandard(document, setup).Ok?
    ensures Inspect(EnableStandard(document, setup).value, setup.pair)
            == Ok(Standard(Str(Plain(setup.classifierUrl)), if setup.bearerEnv.Some? then Str(Plain(setup.bearerEnv.value)) else Null))
  {
    hide SetupOwnedPolicy, OwnedPolicy, OwnedAdapter, Bindings;
    EnabledLists(document, setup);
    OwnedAdapterIsOwned(setup);
    OwnedPolicyIsOwned(setup.pair);
    OnlyMatch(Filter(Elsewhere(setup.pair), Policies(document)), OwnedPolicy(setup.pair), setup.pair);
    FirstMatch(Filter(NotNamed(AdapterId(setup.pair)), Adapters(document)), OwnedAdapter(setup), AdapterId(setup.pair));
  }

  lemma EnableFromLists(document: Item, setup: Setup, adapters: seq<Item>, policies: seq<Item>)
    requires ObjectList(document, "adapters") == Ok(adapters) && ObjectList(document, "policies") == Ok(policies)
    requires PolicyFor(policies, setup.pair) == Ok(Some(OwnedPolicy(setup.pair)))
    requires AdapterFor(adapters, AdapterId(setup.pair)) == Some(OwnedAdapter(setup))
    ensures EnableStandard(document, setup) == Ok(WithLists(document, Filter(NotNamed(AdapterId(setup.pair)), adapters) + [OwnedAdapter(setup)],
                                                            Filter(Elsewhere(setup.pair), policies) + [OwnedPolicy(setup.pair)]))
  {
    hide SetupOwnedAdapter, SetupOwnedPolicy, OwnedPolicy, OwnedAdapter, ObjectList, PolicyFor, AdapterFor, WithLists;
    OwnedAdapterIsOwned(setup);
    OwnedPolicyIsOwned(setup.pair);
  }

  /** Enabling twice is enabling once. */
  lemma EnableIsIdempotent(document: Item, setup: Setup)
    requires EnableStandard(document, setup).Ok?
    ensures EnableStandard(EnableStandard(document, setup).value, setup) == EnableStandard(document, setup)
  {
    hide SetupOwnedPolicy, OwnedPolicy, OwnedAdapter, ObjectList, PolicyFor, Bindings;
    var pair, id := setup.pair, AdapterId(setup.pair);
    var d := EnableStandard(document, setup).value;
    EnabledLists(document, setup);
    var foreign, others := Filter(NotNamed(id), Adapters(document)), Filter(Elsewhere(pair), Policies(document));
    OwnedAdapterIsOwned(setup);
    OwnedPolicyIsOwned(pair);
    OnlyMatch(others, OwnedPolicy(pair), pair);
    FirstMatch(foreign, OwnedAdapter(setup), id);
    EnableFromLists(d, setup, foreign + [OwnedAdapter(setup)], others + [OwnedPolicy(pair)]);
    FilterKeepsRest(NotNamed(id), foreign, OwnedAdapter(setup));
    FilterKeepsRest(Elsewhere(pair), others, OwnedPolicy(pair));
    WriteTwice(document, foreign + [OwnedAdapter(setup)], others + [OwnedPolicy(pair)]);
  }

  lemma FilterKeepsRest<T(!new)>(keep: T -> bool, s: seq<T>, last: T)
    requires !keep(last) && forall x :: x in s ==> keep(x)
    ensures Filter(keep, s + [last]) == s
  {
    FilterConcat(keep, s, [last]);
    FilterAll(keep, s);
    assert Filter(keep, [last]) == [];
  }

  /** A stricter filter sees the same elements before and after a looser one. */
  lemma {:induction false} FilterTwice<T(!new)>(strict: T -> bool, loose: T -> bool, s: seq<T>)
    requires forall x :: strict(x) ==> loose(x)
    ensures Filter(strict, Filter(loose, s)) == Filter(strict, s)
  {
    if s != [] {
      FilterTwice(strict, loose, s[1..]);
      FilterConcat(strict, if loose(s[0]) then [s[0]] else [], Filter(loose, s[1..]));
    }
  }

  /** Enabling leaves other pairs' policies, other adapters and other fields alone, in order. */
  lemma EnableFrames(document: Item, setup: Setup)
    requires EnableStandard(document, setup).Ok?
    ensures Readable(document) && Readable(EnableStandard(document, setup).value)
    ensures var d := EnableStandard(document, setup).value;
            && Filter(NotNamed(AdapterId(setup.pair)), Adapters(d)) == Filter(NotNamed(AdapterId(setup.pair)), Adapters(document))
            && Filter(Elsewhere(setup.pair), Policies(d)) == Filter(Elsewhere(setup.pair), Policies(document))
            && SameOtherFields(d, document)
  {
    hide SetupOwnedPolicy, OwnedPolicy, OwnedAdapter, ObjectList, PolicyFor, Bindings;
    EnabledLists(document, setup);
    OwnedAdapterIsOwned(setup);
    OwnedPolicyIsOwned(setup.pair);
    FilterKeepsRest(NotNamed(AdapterId(setup.pair)), Filter(NotNamed(AdapterId(setup.pair)), Adapters(document)), OwnedAdapter(setup));
    FilterKeepsRest(Elsewhere(setup.pair), Filter(Elsewhere(setup.pair), Policies(document)), OwnedPolicy(setup.pair));
  }

  /** Disabling succeeds on every document with two readable lists, and on no other. */
  lemma DisableReads(document: Item, pair: Pair)
    ensures DisableOwned(document, pair).Ok? <==> Readable(document)
  {
    hide SetupOwnedPolicy, SetupOwnedAdapter, Bindings, ObjectList;
  }

  lemma DisabledLists(document: Item, pair: Pair)
    requires DisableOwned(document, pair).Ok?
    ensures Readable(document) && Readable(DisableOwned(document, pair).value)
    ensures var d := DisableOwned(document, pair).value;
            && Policies(d) == Filter(NotOwned(pair), Policies(document))
            && Adapters(d) == Filter(Remaining(AdapterId(pair), Referenced(Policies(d), AdapterId(pair))), Adapters(document))
            && SameOtherFields(d, document) && d == WithLists(document, Adapters(d), Policies(d))
  {
    hide SetupOwnedPolicy, SetupOwnedAdapter, Bindings;
    var kept := Filter(NotOwned(pair), Policies(document));
    ReadsBack(document, Filter(Remaining(AdapterId(pair), Referenced(kept, AdapterId(pair))), Adapters(document)), kept);
  }

  /** Disabling leaves everything setup does not own alone, in order. */
  lemma DisableFrames(document: Item, pair: Pair)
    requires DisableOwned(document, pair).Ok?
    ensures Readable(document) && Readable(DisableOwned(document, pair).value)
    ensures var d := DisableOwned(document, pair).value;
            && Filter(Remaining(AdapterId(pair), false), Adapters(d)) == Filter(Remaining(AdapterId(pair), false), Adapters(document))
            && Policies(d) == Filter(NotOwned(pair), Policies(document))
            && Filter(Elsewhere(pair), Policies(d)) == Filter(Elsewhere(pair), Policies(document))
            && SameOtherFields(d, document)
  {
    hide Bindings, ObjectList;
    DisabledLists(document, pair);
    var kept := Filter(NotOwned(pair), Policies(document));
    FilterTwice(Remaining(AdapterId(pair), false), Remaining(AdapterId(pair), Referenced(kept, AdapterId(pair))), Adapters(document));
    FilterTwice(Elsewhere(pair), NotOwned(pair), Policies(document));
  }

  /** Disabling twice is disabling once. */
  lemma DisableIsIdempotent(document: Item, pair: Pair)
    requires DisableOwned(document, pair).Ok?
    ensures DisableOwned(DisableOwned(document, pair).value, pair) == DisableOwned(document, pair)
  {
    hide SetupOwnedPolicy, SetupOwnedAdapter, Bindings, ObjectList, WithLists, Referenced, DisableOwned;
    var d := DisableOwned(document, pair).value;
    DisabledLists(document, pair);
    FilterAll(NotOwned(pair), Policies(d));
    FilterAll(Remaining(AdapterId(pair), Referenced(Policies(d), AdapterId(pair))), Adapters(d));
    WriteTwice(document, Adapters(d), Policies(d));
    DisableReads(d, pair);
    DisabledLists(d, pair);
  }

  /** No policy names an adapter the document lacks. */
  ghost predicate Intact(document: Item)
    requires Readable(document)
  {
    forall id :: Referenced(Policies(document), id) ==> exists item :: item in Adapters(document) && HasId(item, id)
  }

  lemma OwnedBindsOnlyItsAdapter(pair: Pair, id: Text)
    requires Binds(OwnedPolicy(pair), id)
    ensures id == AdapterId(pair)
  {
  }

  lemma EnableKeepsIntact(document: Item, setup: Setup)
    requires EnableStandard(document, setup).Ok?
    ensures Readable(document) && Readable(EnableStandard(document, setup).value)
    ensures var d := EnableStandard(document, setup).value;
            && (Intact(document) ==> Intact(d))
  {
    var d := EnableStandard(document, setup).value;
    EnabledLists(document, setup);
    if Intact(document) {
      forall id | Referenced(Policies(d), id) ensures exists item :: item in Adapters(d) && HasId(item, id) {
        hide SetupOwnedPolicy, ObjectList, EnableStandard;
        var k :| 0 <= k < |Policies(d)| && Binds(Policies(d)[k], id);
        if id == AdapterId(setup.pair) {
          OwnedAdapterIsOwned(setup);
          assert OwnedAdapter(setup) in Adapters(d);
        } else {
          if k == |Policies(d)| - 1 { OwnedBindsOnlyItsAdapter(setup.pair, id); }
          hide OwnedPolicy, OwnedAdapter, Binds;
          var policy := Policies(d)[k];
          assert policy in Policies(document);
          var j :| 0 <= j < |Policies(document)| && Policies(document)[j] == policy;
          assert Referenced(Policies(document), id);
          var item :| item in Adapters(document) && HasId(item, id);
          assert NotNamed(AdapterId(setup.pair))(item);
          assert item in Adapters(d);
        }
      }
    }
  }

  lemma DisableKeepsIntact(document: Item, pair: Pair)
    requires DisableOwned(document, pair).Ok?
    ensures Readable(document) && Readable(DisableOwned(document, pair).value)
    ensures var d := DisableOwned(document, pair).value;
            && (Intact(document) ==> Intact(d))
  {
    var d := DisableOwned(document, pair).value;
    DisabledLists(document, pair);
    if Intact(document) {
      forall id | Referenced(Policies(d), id) ensures exists item :: item in Adapters(d) && HasId(item, id) {
        hide SetupOwnedPolicy, ObjectList, DisableOwned, Binds;
        var k :| 0 <= k < |Policies(d)| && Binds(Policies(d)[k], id);
        var policy := Policies(d)[k];
        assert policy in Policies(document);
        var j :| 0 <= j < |Policies(document)| && Policies(document)[j] == policy;
        assert Referenced(Policies(document), id);
        var item :| item in Adapters(document) && HasId(item, id);
        assert Remaining(AdapterId(pair), Referenced(Policies(d), AdapterId(pair)))(item);
        assert item in Adapters(d);
      }
    }
  }

  lemma {:induction false} FilterIsAll<T(!new)>(keep: T -> bool, s: seq<T>)
    ensures Filter(keep, s) == s <==> forall x :: x in s ==> keep(x)
  {
    if forall x :: x in s ==> keep(x) {
      FilterAll(keep, s);
    } else {
      var x :| x in s && !keep(x);
      assert x !in Filter(keep, s);
    }
  }

  /** What disabling after enabling leaves. */
  lemma DisableAfterEnable(document: Item, setup: Setup)
    requires EnableStandard(document, setup).Ok?
    ensures Readable(document)
    ensures var others := Filter(Elsewhere(setup.pair), Policies(document));
            var undone := DisableOwned(EnableStandard(document, setup).value, setup.pair);
            && undone.Ok? && Readable(undone.value) && Policies(undone.value) == others
            && Adapters(undone.value) == Filter(NotNamed(AdapterId(setup.pair)), Adapters(document))
                                         + if Referenced(others, AdapterId(setup.pair)) then [OwnedAdapter(setup)] else []
  {
    hide SetupOwnedPolicy, OwnedPolicy, OwnedAdapter, ObjectList, Bindings, EnableStandard, DisableOwned;
    var pair, id := setup.pair, AdapterId(setup.pair);
    var d := EnableStandard(document, setup).value;
    EnabledLists(document, setup);
    var foreign, others := Filter(NotNamed(id), Adapters(document)), Filter(Elsewhere(pair), Policies(document));
    DisableReads(d, pair);
    DisabledLists(d, pair);
    OwnedAdapterIsOwned(setup);
    OwnedPolicyIsOwned(pair);
    NotSameNotOwned(others, pair);
    FilterKeepsRest(NotOwned(pair), others, OwnedPolicy(pair));
    if Referenced(others, id) {
      FilterAll(Remaining(id, true), foreign + [OwnedAdapter(setup)]);
    } else {
      FilterKeepsRest(Remaining(id, false), foreign, OwnedAdapter(setup));
    }
  }

  lemma NotSameNotOwned(policies: seq<Item>, pair: Pair)
    requires forall item :: item in policies ==> !SameIdentity(item, pair)
    ensures forall item :: item in policies ==> !SetupOwnedPolicy(item, pair)
  {
    hide SameIdentity, Get;
  }

  /** The adapter list ends in exactly the planned adapter, which no other entry names. */
  predicate PlannedLast(adapters: seq<Item>, setup: Setup) {
    && adapters != [] && adapters[|adapters| - 1] == OwnedAdapter(setup)
    && forall k :: 0 <= k < |adapters| - 1 ==> !HasId(adapters[k], AdapterId(setup.pair))
  }

  lemma PlannedLastMeans(adapters: seq<Item>, setup: Setup)
    ensures PlannedLast(adapters, setup) <==> Filter(NotNamed(AdapterId(setup.pair)), adapters) + [OwnedAdapter(setup)] == adapters
  {
    hide OwnedAdapter;
    OwnedAdapterIsOwned(setup);
    if PlannedLast(adapters, setup) {
      var init := adapters[..|adapters| - 1];
      assert adapters == init + [OwnedAdapter(setup)];
      FilterKeepsRest(NotNamed(AdapterId(setup.pair)), init, OwnedAdapter(setup));
    }
    var foreign := Filter(NotNamed(AdapterId(setup.pair)), adapters);
    if foreign + [OwnedAdapter(setup)] == adapters {
      forall k | 0 <= k < |adapters| - 1 ensures !HasId(adapters[k], AdapterId(setup.pair)) {
        assert adapters[k] == foreign[k];
        assert foreign[k] in foreign;
      }
    }
  }

  /** Disabling undoes enabling exactly when the pair had no policy and no setup adapter, or already held the planned adapter last for another policy. */
  lemma DisableUndoesEnable(document: Item, setup: Setup)
    requires EnableStandard(document, setup).Ok?
    ensures Readable(document)
    ensures var adapters, policies := Adapters(document), Policies(document);
            var undone := DisableOwned(EnableStandard(document, setup).value, setup.pair);
            && undone.Ok? && Readable(undone.value)
            && (Adapters(undone.value) == adapters && Policies(undone.value) == policies <==>
                && (forall item :: item in policies ==> !SameIdentity(item, setup.pair))
                && if Referenced(policies, AdapterId(setup.pair)) then PlannedLast(adapters, setup)
                   else forall item :: item in adapters ==> !HasId(item, AdapterId(setup.pair)))
  {
    hide EnableStandard, DisableOwned, ObjectList, OwnedAdapter, PlannedLast, Referenced;
    DisableAfterEnable(document, setup);
    var adapters, policies := Adapters(document), Policies(document);
    PlannedLastMeans(adapters, setup);
    FilterIsAll(Elsewhere(setup.pair), policies);
    FilterIsAll(NotNamed(AdapterId(setup.pair)), adapters);
    assert Filter(NotNamed(AdapterId(setup.pair)), adapters) + [] == Filter(NotNamed(AdapterId(setup.pair)), adapters);
  }

  /** After disabling, the pair reads as off exactly when setup owned every policy it had. */
  lemma DisableLandsAsOff(document: Item, pair: Pair)
    requires DisableOwned(document, pair).Ok?
    ensures Readable(document)
    ensures Inspect(DisableOwned(document, pair).value, pair) == Ok(Off)
            <==> forall item :: item in Policies(document) && SameIdentity(item, pair) ==> SetupOwnedPolicy(item, pair)
  {
    hide SetupOwnedPolicy, SetupOwnedAdapter, Bindings, ObjectList, Referenced, AdapterFor, Get, SameIdentity;
    DisabledLists(document, pair);
    var policies := Policies(document);
    var kept := Filter(NotOwned(pair), policies);
    var matches := Filter(Assigned(pair), kept);
    assert PolicyFor(kept, pair) == Ok(None) <==> matches == [];
    if matches != [] {
      assert matches[0] in matches && matches[0] in kept;
    } else {
      forall item | item in policies && SameIdentity(item, pair) ensures SetupOwnedPolicy(item, pair) {
        assert NotOwned(pair)(item) ==> item in kept;
        assert item in kept && Assigned(pair)(item) ==> item in matches;
      }
    }
  }
}
