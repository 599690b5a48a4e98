/** Admission of metric labels, and how many label maps can ever be admitted. */
module Metrics {
  import opened Seqs
  import opened Json
  import Shape

  // ----- the pinned vocabulary -----

  const PREFIX := "ores.rate_limit."
  const POLICY_ID := "ores.rate_limit.policy_id"
  const OBSERVED_ONLY := "ores.rate_limit.observed_only"

  const REQUIRED_DECISION := [
    "ores.rate_limit.policy_id", "ores.rate_limit.layer", "ores.rate_limit.algorithm",
    "ores.rate_limit.outcome", "ores.rate_limit.source", "ores.rate_limit.principal_kind"]
  const OPTIONAL_NAMES := ["ores.rate_limit.failure_mode", "ores.rate_limit.retry_bucket", "ores.rate_limit.observed_only"]
  const PINNED_METRICS := ["decisions", "backendErrors", "cacheEntries", "retryAfter"]
  const ENUM_NAMES := ["layer", "algorithm", "outcome", "source", "principalKind", "failureMode", "retryBucket"]
  const FORBIDDEN := [
    "authorization", "cookie", "email", "ip", "client_ip", "user_id", "tenant_id", "session_id", "subject", "token",
    "principal", "principal_digest", "rate_limit_key", "redis_key", "cache_key"]
  const TRACE_ONLY := ["ores.rate_limit.principal_fingerprint", "trace_id", "http.request_id"]

  function ExpectedEnum(name: string): seq<string> {
    if name == "layer" then ["edge", "load_balancer", "service", "authentication", "data_store"]
    else if name == "algorithm" then ["token_bucket", "fixed_window", "sliding_window", "concurrency"]
    else if name == "outcome" then ["allow", "deny", "observe_only_overage", "bypass", "degraded_allow"]
    else if name == "source" then
      ["cloudflare_binding", "cloudflare_deny_cache", "ingress_nginx", "envoy_local", "traefik_local", "local_memory",
       "redis_authoritative", "redis_deny_cache", "data_store"]
    else if name == "principalKind" then ["anonymous_ip", "authenticated_subject", "service_identity", "tenant", "composite"]
    else if name == "failureMode" then ["fail_open", "fail_closed", "local_fallback", "not_applicable"]
    else if name == "retryBucket" then ["none", "lt_1s", "1s_10s", "10s_60s", "1m_5m", "gt_5m"]
    else []
  }

  function EnumBySuffix(suffix: string): Option<string> {
    if suffix == "layer" then Some("layer")
    else if suffix == "algorithm" then Some("algorithm")
    else if suffix == "outcome" then Some("outcome")
    else if suffix == "source" then Some("source")
    else if suffix == "principal_kind" then Some("principalKind")
    else if suffix == "failure_mode" then Some("failureMode")
    else if suffix == "retry_bucket" then Some("retryBucket")
    else None
  }

  function Suffix(key: string): string {
    if PREFIX <= key then key[|PREFIX|..] else key
  }

  function StrOf(s: string): Json { Str(s) }

  // ----- the gate -----

  predicate Includes(j: Json, s: string) { j.Arr? && Str(s) in j.items }

  predicate TrustedContract(c: Json) {
    var (card, attr, enums, metrics) := (Shape.Get(c, "cardinality"), Shape.Get(c, "attributes"), Shape.Get(c, "enums"), Shape.Get(c, "metrics"));
    && Shape.Get(card, "policyIdIsStaticConfiguration") == Bool(true)
    && Shape.Get(card, "dynamicRouteLabelsAllowed") == Bool(false)
    && Shape.Get(card, "principalFingerprintAllowedInMetrics") == Bool(false)
    && Shape.Get(card, "policyIdMaxUtf8Bytes") == Num(128.0)
    && (forall n | n in FORBIDDEN :: Includes(Shape.Get(c, "forbiddenAttributes"), n))
    && Shape.Get(c, "forbiddenAttributes").Arr?
    && (forall n | n in TRACE_ONLY :: Includes(Shape.Get(attr, "traceOrLogOnly"), n))
    && Shape.Get(attr, "traceOrLogOnly").Arr?
    && Shape.Get(attr, "requiredDecision").Arr? && |Shape.Get(attr, "requiredDecision").items| == |REQUIRED_DECISION|
    && (forall n | n in REQUIRED_DECISION :: Includes(Shape.Get(attr, "requiredDecision"), n))
    && (forall n | n in ENUM_NAMES :: PinnedEnum(Shape.Get(enums, n), ExpectedEnum(n)))
    && (forall n | n in PINNED_METRICS :: PinnedMetric(Shape.Get(metrics, n)))
  }

  predicate PinnedEnum(j: Json, expected: seq<string>) {
    j.Arr? && |j.items| == |expected| && forall i | 0 <= i < |expected| :: j.items[i] == Str(expected[i])
  }

  predicate PinnedMetric(j: Json) {
    && j.Obj? && Shape.Get(j, "allowedAttributes").Arr?
    && forall x | x in Shape.Get(j, "allowedAttributes").items :: x.Str? && x.s in REQUIRED_DECISION + OPTIONAL_NAMES
  }

  predicate CanonicalStart(c: char) { 'a' <= c <= 'z' || '0' <= c <= '9' }

  /** Only ASCII, so the length in characters is the length in bytes. */
  predicate Canonical(s: string) {
    s != "" && CanonicalStart(s[0]) && forall c | c in s :: CanonicalStart(c) || c == '.' || c == '_' || c == '-'
  }

  predicate PolicyIdsOk(j: Json) {
    && j.Arr? && 1 <= |j.items| <= 64
    && (forall x | x in j.items :: x.Str? && Canonical(x.s) && |x.s| <= 128)
    && |ToSet(j.items)| == |j.items|
  }

  /** Names every object inherits, with the property key each inherited value is read as; it depends on the engine. */
  type Inherited = map<string, string>

  /** A look-up in the table of suffixes, which also sees inherited names. */
  function EnumName(inherited: Inherited, suffix: string): Option<string> {
    if EnumBySuffix(suffix).Some? then EnumBySuffix(suffix)
    else if suffix in inherited then Some(inherited[suffix])
    else None
  }

  predicate LabelOk(inherited: Inherited, contract: Json, policyIds: Json, key: string, value: Json) {
    if key == POLICY_ID then policyIds.Arr? && value in policyIds.items
    else if key == OBSERVED_ONLY then value.Bool?
    else
      var name := EnumName(inherited, Suffix(key));
      name.Some? &&
      var vocabulary := Shape.Get(Shape.Get(contract, "enums"), name.value);
      vocabulary.Arr? && value in vocabulary.items
  }

  /** The admitted labels, or `None` for a thrown error. */
  function Admit(inherited: Inherited, contract: Json, metricKey: string, attributes: Json, policyIds: Json): Option<map<string, Json>> {
    var metrics := Shape.Get(contract, "metrics");
    if !contract.Obj? || Shape.Get(contract, "schema") != Str("ores-otel/rate-limit-telemetry/v1")
       || !metrics.Obj? || !Shape.Get(contract, "attributes").Obj?
       || !Shape.Get(contract, "enums").Obj? || !Shape.Get(contract, "cardinality").Obj? then None
    else if !TrustedContract(contract) || !PolicyIdsOk(policyIds) then None
    else
      var metric := Shape.Get(metrics, metricKey);
      var allowed := Shape.Get(metric, "allowedAttributes");
      if !metric.Obj? || !allowed.Arr? || !attributes.Obj? then None
      else
        var labels := attributes.members;
        var forbidden := Shape.Get(contract, "forbiddenAttributes").items + Shape.Get(Shape.Get(contract, "attributes"), "traceOrLogOnly").items;
        if |labels| > |ToSet(allowed.items)| || |labels| > 12 then None
        else if exists k | k in labels :: Str(k) !in allowed.items || Str(k) in forbidden || !LabelOk(inherited, contract, policyIds, k, labels[k]) then None
        else if metricKey == "decisions" && exists r | r in Shape.Get(Shape.Get(contract, "attributes"), "requiredDecision").items :: r.Str? && r.s !in labels then None
        else Some(labels)
  }

  // ----- the space of label maps, which no contract can widen -----

  datatype Label = Label(name: string, required: bool)

  /** What label values are drawn from, besides the pinned enumerations. */
  datatype Words = Words(ids: seq<string>, inherited: Inherited)

  /** The values of one label: the configured policy identifiers, the two booleans, or a pinned enumeration. */
  function Vocabulary(name: string, words: Words): seq<Json> {
    if name == POLICY_ID then Map(StrOf, words.ids)
    else if name == OBSERVED_ONLY then [Bool(false), Bool(true)]
    else
      var enumName := EnumName(words.inherited, Suffix(name));
      if enumName.Some? then Map(StrOf, ExpectedEnum(enumName.value)) else []
  }

  type Labels = map<string, Json>

  function Extend(maps: set<Labels>, name: string, value: Json): set<Labels> {
    set m | m in maps :: m[name := value]
  }

  function ExtendAll(maps: set<Labels>, name: string, values: seq<Json>): set<Labels> {
    if values == [] then {}
    else ExtendAll(maps, name, values[..|values| - 1]) + Extend(maps, name, values[|values| - 1])
  }

  /** Every map of these labels to their vocabularies; an optional label may be absent. */
  function Space(labels: seq<Label>, words: Words): set<Labels> {
    if labels == [] then {map[]}
    else
      var (rest, last) := (Space(labels[..|labels| - 1], words), labels[|labels| - 1]);
      ExtendAll(rest, last.name, Vocabulary(last.name, words)) + if last.required then {} else rest
  }

  function Choices(l: Label, words: Words): nat {
    |Vocabulary(l.name, words)| + if l.required then 0 else 1
  }

  function Product(labels: seq<Label>, words: Words): nat {
    if labels == [] then 1 else Times(Product(labels[..|labels| - 1], words), Choices(labels[|labels| - 1], words))
  }

  function Times(a: nat, b: nat): nat { a * b }

  lemma {:induction false} SubsetSize<T>(a: set<T>, b: set<T>)
    requires a <= b
    ensures |a| <= |b|
  {
    if a != {} {
      var x :| x in a;
      SubsetSize(a - {x}, b - {x});
    }
  }

  lemma {:induction false} ExtendSize(maps: set<Labels>, name: string, value: Json)
    ensures |Extend(maps, name, value)| <= |maps|
  {
    if maps != {} {
      var m :| m in maps;
      ExtendSize(maps - {m}, name, value);
      forall x | x in Extend(maps, name, value) ensures x in Extend(maps - {m}, name, value) + {m[name := value]} {
        var y :| y in maps && x == y[name := value];
        assert y == m || y in maps - {m};
      }
      assert Extend(maps, name, value) <= Extend(maps - {m}, name, value) + {m[name := value]};
      SubsetSize(Extend(maps, name, value), Extend(maps - {m}, name, value) + {m[name := value]});
    }
  }

  lemma Step(a: nat, n: nat)
    requires n > 0
    ensures a * n == a * (n - 1) + a
  {
  }

  lemma {:induction false} ExtendAllSize(maps: set<Labels>, name: string, values: seq<Json>)
    ensures |ExtendAll(maps, name, values)| <= |maps| * |values|
  {
    if values != [] {
      var n := |values| - 1;
      ExtendAllSize(maps, name, values[..n]);
      ExtendSize(maps, name, values[n]);
      Step(|maps|, |values|);
    }
  }

  lemma Scaled(a: nat, b: nat, n: nat)
    requires a <= b
    ensures a * n <= b * n
  {
  }

  lemma {:induction false} SpaceSize(labels: seq<Label>, words: Words)
    ensures |Space(labels, words)| <= Product(labels, words)
  {
    if labels != [] {
      var (before, last) := (labels[..|labels| - 1], labels[|labels| - 1]);
      SpaceSize(before, words);
      var rest := Space(before, words);
      var values := Vocabulary(last.name, words);
      ExtendAllSize(rest, last.name, values);
      Scaled(|rest|, Product(before, words), Choices(last, words));
      Step(|rest|, |values| + 1);
    }
  }

  /** Labels with distinct names, each present value from its vocabulary, no required label absent. */
  ghost predicate Fits(m: Labels, labels: seq<Label>, words: Words) {
    && (forall k | k in m :: exists l | l in labels :: l.name == k)
    && (forall l | l in labels :: l.required ==> l.name in m)
    && (forall l | l in labels && l.name in m :: m[l.name] in Vocabulary(l.name, words))
  }

  function NameOfLabel(l: Label): string { l.name }

  lemma {:induction false} InExtendAll(maps: set<Labels>, name: string, values: seq<Json>, m: Labels, v: Json)
    requires m in maps && v in values
    ensures m[name := v] in ExtendAll(maps, name, values)
  {
    var n := |values| - 1;
    if v != values[n] {
      InExtendAll(maps, name, values[..n], m, v);
    }
  }

  function Less(m: Labels, name: string): Labels { map k | k in m && k != name :: m[k] }

  lemma OtherNames(before: seq<Label>, last: Label)
    requires NoDup(Map(NameOfLabel, before + [last]))
    ensures NoDup(Map(NameOfLabel, before)) && forall l | l in before :: l.name != last.name
  {
    MapAppend(NameOfLabel, before, [last]);
    assert Map(NameOfLabel, [last]) == [last.name];
    NoDupSnoc(Map(NameOfLabel, before), last.name);
    forall l | l in before ensures l.name != last.name {
      MapIn(NameOfLabel, before, l);
    }
  }

  lemma RestFits(m: Labels, before: seq<Label>, last: Label, words: Words)
    requires Fits(m, before + [last], words) && forall l | l in before :: l.name != last.name
    ensures Fits(Less(m, last.name), before, words)
  {
    var rest := Less(m, last.name);
    forall k | k in rest ensures exists l | l in before :: l.name == k {
      var l :| l in before + [last] && l.name == k;
      assert l in before;
    }
    forall l | l in before ensures l.required ==> l.name in rest {
      assert l in before + [last];
    }
    forall l | l in before && l.name in rest ensures rest[l.name] in Vocabulary(l.name, words) {
      assert l in before + [last];
    }
  }

  lemma LastFits(m: Labels, before: seq<Label>, last: Label, words: Words)
    requires Fits(m, before + [last], words)
    ensures last.required ==> last.name in m
    ensures last.name in m ==> m[last.name] in Vocabulary(last.name, words)
  {
    assert last in before + [last];
  }

  lemma LastStep(m: Labels, before: seq<Label>, last: Label, words: Words)
    requires Less(m, last.name) in Space(before, words)
    requires last.required ==> last.name in m
    requires last.name in m ==> m[last.name] in Vocabulary(last.name, words)
    ensures m in Space(before + [last], words)
  {
    var rest := Less(m, last.name);
    assert (before + [last])[..|before|] == before;
    if last.name in m {
      InExtendAll(Space(before, words), last.name, Vocabulary(last.name, words), rest, m[last.name]);
      assert m == rest[last.name := m[last.name]];
    } else {
      assert m == rest;
    }
  }

  lemma {:induction false} FitsIsInSpace(m: Labels, labels: seq<Label>, words: Words)
    requires Fits(m, labels, words) && NoDup(Map(NameOfLabel, labels))
    ensures m in Space(labels, words)
  {
    if labels == [] {
      assert m == map[];
    } else {
      var (before, last) := (labels[..|labels| - 1], labels[|labels| - 1]);
      assert labels == before + [last];
      OtherNames(before, last);
      RestFits(m, before, last, words);
      FitsIsInSpace(Less(m, last.name), before, words);
      LastFits(m, before, last, words);
      LastStep(m, before, last, words);
    }
  }

  // ----- what the gate admits lies in that space -----

  function Required(name: string): Label { Label(name, true) }
  function Optional(name: string): Label { Label(name, false) }

  /** The labels a pinned metric can carry; a decision carries the required ones always. */
  function PinnedLabels(metricKey: string): seq<Label> {
    Map(if metricKey == "decisions" then Required else Optional, REQUIRED_DECISION) + Map(Optional, OPTIONAL_NAMES)
  }

  function IdsOf(j: Json): seq<string> { Map(Shape.TextOf, Shape.ItemsOf(j)) }

  lemma PinnedEnumIs(c: Json, n: string, value: Json)
    requires TrustedContract(c) && n in ENUM_NAMES
    ensures var e := Shape.Get(Shape.Get(c, "enums"), n);
            e.Arr? && (value in e.items ==> value in Map(StrOf, ExpectedEnum(n)))
  {
    var (e, expected) := (Shape.Get(Shape.Get(c, "enums"), n), ExpectedEnum(n));
    assert PinnedEnum(e, expected);
    assert e.items == Map(StrOf, expected);
  }

  lemma SuffixEnums(suffix: string)
    ensures EnumBySuffix(suffix).Some? ==> EnumBySuffix(suffix).value in ENUM_NAMES
  {
    var n := EnumBySuffix(suffix);
    assert ENUM_NAMES[0] == "layer" && ENUM_NAMES[1] == "algorithm" && ENUM_NAMES[2] == "outcome" && ENUM_NAMES[3] == "source";
    assert ENUM_NAMES[4] == "principalKind" && ENUM_NAMES[5] == "failureMode" && ENUM_NAMES[6] == "retryBucket";
  }

  lemma IdsAreTexts(j: Json, value: Json)
    requires PolicyIdsOk(j) && value in j.items
    ensures value in Map(StrOf, IdsOf(j))
  {
    var i :| 0 <= i < |j.items| && j.items[i] == value;
    assert Map(StrOf, IdsOf(j))[i] == Str(IdsOf(j)[i]);
  }

  /** A label the gate knows by itself, without inherited names. */
  predicate Owned(key: string) {
    key == POLICY_ID || key == OBSERVED_ONLY || EnumBySuffix(Suffix(key)).Some?
  }

  lemma OwnedVocabulary(key: string, ids: seq<string>, inherited: Inherited)
    requires Owned(key)
    ensures Vocabulary(key, Words(ids, inherited)) == Vocabulary(key, Words(ids, map[]))
  {
  }

  /** Read through an inherited name, into a place that no rule of the guard pins. */
  predicate Unpinned(inherited: Inherited, key: string) {
    !Owned(key) && Suffix(key) in inherited && inherited[Suffix(key)] !in ENUM_NAMES
  }

  /** Never read from an unpinned place: it is pinned, it is unknown, or every trusted contract forbids it. */
  predicate Tame(inherited: Inherited, key: string) {
    !Unpinned(inherited, key) || key in FORBIDDEN || key in TRACE_ONLY
  }

  /** An accepted label has a value of its vocabulary, unless it is read from an unpinned place. */
  lemma AcceptedValue(inherited: Inherited, c: Json, policyIds: Json, key: string, value: Json)
    requires TrustedContract(c) && PolicyIdsOk(policyIds) && LabelOk(inherited, c, policyIds, key, value)
    requires !Unpinned(inherited, key)
    ensures value in Vocabulary(key, Words(IdsOf(policyIds), inherited))
  {
    if key == POLICY_ID {
      IdsAreTexts(policyIds, value);
    } else if key != OBSERVED_ONLY {
      SuffixEnums(Suffix(key));
      PinnedEnumIs(c, EnumName(inherited, Suffix(key)).value, value);
    }
  }

  lemma AdmittedLabels(inherited: Inherited, c: Json, metricKey: string, attributes: Json, policyIds: Json)
    requires Admit(inherited, c, metricKey, attributes, policyIds).Some?
    ensures var m := Admit(inherited, c, metricKey, attributes, policyIds).value;
            && TrustedContract(c) && PolicyIdsOk(policyIds)
            && (forall k | k in m :: LabelOk(inherited, c, policyIds, k, m[k]) && k !in FORBIDDEN && k !in TRACE_ONLY)
            && m == attributes.members
            && (forall k | k in m :: Str(k) in Shape.ItemsOf(Shape.Get(Shape.Get(Shape.Get(c, "metrics"), metricKey), "allowedAttributes")))
  {
  }

  lemma RequiredPresent(inherited: Inherited, c: Json, attributes: Json, policyIds: Json, name: string)
    requires Admit(inherited, c, "decisions", attributes, policyIds).Some? && name in REQUIRED_DECISION
    ensures name in Admit(inherited, c, "decisions", attributes, policyIds).value
  {
    assert TrustedContract(c);
    assert Includes(Shape.Get(Shape.Get(c, "attributes"), "requiredDecision"), name);
  }

  lemma PinnedNames(metricKey: string, k: string)
    ensures k in REQUIRED_DECISION + OPTIONAL_NAMES <==> exists l | l in PinnedLabels(metricKey) :: l.name == k
  {
    var make := if metricKey == "decisions" then Required else Optional;
    if k in REQUIRED_DECISION {
      MapIn(make, REQUIRED_DECISION, k);
      assert make(k) in PinnedLabels(metricKey);
    }
    if k in OPTIONAL_NAMES {
      MapIn(Optional, OPTIONAL_NAMES, k);
      assert Optional(k) in PinnedLabels(metricKey);
    }
    if l :| l in PinnedLabels(metricKey) && l.name == k {
      if l in Map(make, REQUIRED_DECISION) {
        var x := MapInInverse(make, REQUIRED_DECISION, l);
      } else {
        var x := MapInInverse(Optional, OPTIONAL_NAMES, l);
      }
    }
  }

  lemma OwnedBySuffix(suffix: string, key: string)
    requires EnumBySuffix(suffix).Some? && key == PREFIX + suffix
    ensures Owned(key)
  {
    assert key[|PREFIX|..] == suffix;
  }

  lemma PinnedOwned(k: string)
    requires k in REQUIRED_DECISION + OPTIONAL_NAMES
    ensures Owned(k)
  {
    Spelled();
    OwnedBySuffix("layer", PREFIX + "layer");
    OwnedBySuffix("algorithm", PREFIX + "algorithm");
    OwnedBySuffix("outcome", PREFIX + "outcome");
    OwnedBySuffix("source", PREFIX + "source");
    OwnedBySuffix("principal_kind", PREFIX + "principal_kind");
    OwnedBySuffix("failure_mode", PREFIX + "failure_mode");
    OwnedBySuffix("retry_bucket", PREFIX + "retry_bucket");
  }

  lemma PinnedDistinct(metricKey: string)
    ensures NoDup(Map(NameOfLabel, PinnedLabels(metricKey)))
  {
    var make := if metricKey == "decisions" then Required else Optional;
    assert Map(NameOfLabel, Map(make, REQUIRED_DECISION)) == REQUIRED_DECISION;
    assert Map(NameOfLabel, Map(Optional, OPTIONAL_NAMES)) == OPTIONAL_NAMES;
    MapAppend(NameOfLabel, Map(make, REQUIRED_DECISION), Map(Optional, OPTIONAL_NAMES));
    NamesDistinct();
  }

  lemma NamesDistinct()
    ensures NoDup(REQUIRED_DECISION + OPTIONAL_NAMES)
  {
  }

  /** Every label map a pinned metric can carry, by the configured policy identifiers alone. */
  function PinnedSpace(metricKey: string, ids: seq<string>): set<Labels> { Space(PinnedLabels(metricKey), Words(ids, map[])) }

  lemma PinnedAllowed(c: Json, metricKey: string, k: string)
    requires TrustedContract(c) && metricKey in PINNED_METRICS
    requires Str(k) in Shape.ItemsOf(Shape.Get(Shape.Get(Shape.Get(c, "metrics"), metricKey), "allowedAttributes"))
    ensures k in REQUIRED_DECISION + OPTIONAL_NAMES
  {
    assert PinnedMetric(Shape.Get(Shape.Get(c, "metrics"), metricKey));
  }

  lemma RequiredLabel(metricKey: string, l: Label)
    requires l in PinnedLabels(metricKey) && l.required
    ensures metricKey == "decisions" && l.name in REQUIRED_DECISION
  {
    var make := if metricKey == "decisions" then Required else Optional;
    if l in Map(make, REQUIRED_DECISION) {
      var x := MapInInverse(make, REQUIRED_DECISION, l);
    } else {
      var x := MapInInverse(Optional, OPTIONAL_NAMES, l);
    }
  }

  /**
   * Whatever contract is supplied, what is admitted for a pinned metric lies in one finite set
   * fixed by the policy identifiers, no larger than the product of the pinned vocabularies.
   */
  lemma PinnedMetricIsBounded(inherited: Inherited, c: Json, metricKey: string, attributes: Json, policyIds: Json)
    requires metricKey in PINNED_METRICS && Admit(inherited, c, metricKey, attributes, policyIds).Some?
    ensures Admit(inherited, c, metricKey, attributes, policyIds).value in PinnedSpace(metricKey, IdsOf(policyIds))
    ensures |PinnedSpace(metricKey, IdsOf(policyIds))| <= Product(PinnedLabels(metricKey), Words(IdsOf(policyIds), map[]))
  {
    var m := Admit(inherited, c, metricKey, attributes, policyIds).value;
    var (labels, words) := (PinnedLabels(metricKey), Words(IdsOf(policyIds), map[]));
    AdmittedLabels(inherited, c, metricKey, attributes, policyIds);
    forall k | k in m ensures m[k] in Vocabulary(k, words) && exists l | l in labels :: l.name == k {
      PinnedAllowed(c, metricKey, k);
      PinnedOwned(k);
      PinnedNames(metricKey, k);
      AcceptedValue(inherited, c, policyIds, k, m[k]);
      OwnedVocabulary(k, IdsOf(policyIds), inherited);
    }
    forall l | l in labels && l.required ensures l.name in m {
      RequiredLabel(metricKey, l);
      RequiredPresent(inherited, c, attributes, policyIds, l.name);
    }
    assert Fits(m, labels, words);
    PinnedDistinct(metricKey);
    FitsIsInSpace(m, labels, words);
    SpaceSize(labels, words);
  }

  // ----- the bound as a number -----

  lemma ProductSnoc(labels: seq<Label>, l: Label, words: Words)
    ensures Product(labels + [l], words) == Times(Product(labels, words), Choices(l, words))
  {
    assert (labels + [l])[..|labels|] == labels;
  }

  lemma SpecialSuffixes()
    ensures Suffix(POLICY_ID) == "policy_id" && Suffix(OBSERVED_ONLY) == "observed_only"
    ensures EnumBySuffix("policy_id").None? && EnumBySuffix("observed_only").None?
  {
  }

  lemma VocabularyOf(name: string, suffix: string, words: Words)
    requires Suffix(name) == suffix && EnumBySuffix(suffix).Some?
    ensures |Vocabulary(name, words)| == |ExpectedEnum(EnumBySuffix(suffix).value)|
  {
    SpecialSuffixes();
    assert name != POLICY_ID && name != OBSERVED_ONLY;
  }

  lemma EnumChoices(suffix: string, required: bool, words: Words, size: nat)
    requires EnumBySuffix(suffix).Some? && |ExpectedEnum(EnumBySuffix(suffix).value)| == size
    ensures Choices(Label(PREFIX + suffix, required), words) == if required then size else size + 1
  {
    SuffixOf(suffix);
    VocabularyOf(Prefixed(suffix), suffix, words);
  }

  /** The labels in the order of the lists, each written as prefix and suffix. */
  function ByName(required: bool): seq<Label> {
    FirstSix(required) + [Label(PREFIX + "failure_mode", false)] + [Label(PREFIX + "retry_bucket", false)] + [Label(OBSERVED_ONLY, false)]
  }

  function FirstSix(required: bool): seq<Label> {
    [Label(POLICY_ID, required)] + [Label(PREFIX + "layer", required)] + [Label(PREFIX + "algorithm", required)] +
    [Label(PREFIX + "outcome", required)] + [Label(PREFIX + "source", required)] + [Label(PREFIX + "principal_kind", required)]
  }

  lemma Spelled()
    ensures REQUIRED_DECISION == [POLICY_ID, PREFIX + "layer", PREFIX + "algorithm", PREFIX + "outcome", PREFIX + "source",
                                  PREFIX + "principal_kind"]
    ensures OPTIONAL_NAMES == [PREFIX + "failure_mode", PREFIX + "retry_bucket", OBSERVED_ONLY]
  {
    assert PREFIX + "layer" == "ores.rate_limit.layer";
    assert PREFIX + "algorithm" == "ores.rate_limit.algorithm";
    assert PREFIX + "outcome" == "ores.rate_limit.outcome";
    assert PREFIX + "source" == "ores.rate_limit.source";
    assert PREFIX + "principal_kind" == "ores.rate_limit.principal_kind";
    assert PREFIX + "failure_mode" == "ores.rate_limit.failure_mode";
    assert PREFIX + "retry_bucket" == "ores.rate_limit.retry_bucket";
  }

  lemma MappedSix(f: string -> Label, a: string, b: string, c: string, d: string, e: string, g: string)
    ensures Map(f, [a, b, c, d, e, g]) == [f(a)] + [f(b)] + [f(c)] + [f(d)] + [f(e)] + [f(g)]
  {
  }

  lemma MappedThree(f: string -> Label, a: string, b: string, c: string)
    ensures Map(f, [a, b, c]) == [f(a), f(b), f(c)]
  {
  }

  lemma PinnedByName(metricKey: string)
    ensures PinnedLabels(metricKey) == ByName(metricKey == "decisions")
  {
    Spelled();
    var make := if metricKey == "decisions" then Required else Optional;
    MappedSix(make, POLICY_ID, PREFIX + "layer", PREFIX + "algorithm", PREFIX + "outcome", PREFIX + "source", PREFIX + "principal_kind");
    MappedThree(Optional, PREFIX + "failure_mode", PREFIX + "retry_bucket", OBSERVED_ONLY);
    assert Map(make, REQUIRED_DECISION) == FirstSix(metricKey == "decisions");
  }

  lemma ThreeLabels(first: seq<Label>, a: Label, b: Label, c: Label, words: Words)
    ensures Product(first + [a] + [b] + [c], words) ==
              Times(Times(Times(Product(first, words), Choices(a, words)), Choices(b, words)), Choices(c, words))
  {
    ProductSnoc(first, a, words);
    ProductSnoc(first + [a], b, words);
    ProductSnoc(first + [a] + [b], c, words);
  }

  lemma FirstLabel(l: Label, words: Words)
    ensures Product([l], words) == Choices(l, words)
  {
    assert [] + [l] == [l];
    ProductSnoc([], l, words);
    TimesOne(Choices(l, words));
  }

  lemma TimesOne(n: nat)
    ensures Times(1, n) == n
  {
  }

  lemma ThreeFirst(a: Label, b: Label, c: Label, words: Words)
    ensures Product([a] + [b] + [c], words) == Times(Times(Choices(a, words), Choices(b, words)), Choices(c, words))
  {
    FirstLabel(a, words);
    ProductSnoc([a], b, words);
    ProductSnoc([a] + [b], c, words);
  }

  lemma SixLabels(l1: Label, l2: Label, l3: Label, l4: Label, l5: Label, l6: Label, words: Words)
    ensures Product([l1] + [l2] + [l3] + [l4] + [l5] + [l6], words) ==
              Times(Times(Times(Times(Times(Choices(l1, words), Choices(l2, words)), Choices(l3, words)), Choices(l4, words)), Choices(l5, words)), Choices(l6, words))
  {
    ThreeFirst(l1, l2, l3, words);
    ThreeLabels([l1] + [l2] + [l3], l4, l5, l6, words);
  }

  lemma EnumSizes(required: bool, words: Words)
    ensures var a := if required then 0 else 1;
            && Choices(Label(PREFIX + "layer", required), words) == 5 + a
            && Choices(Label(PREFIX + "algorithm", required), words) == 4 + a
            && Choices(Label(PREFIX + "outcome", required), words) == 5 + a
            && Choices(Label(PREFIX + "source", required), words) == 9 + a
            && Choices(Label(PREFIX + "principal_kind", required), words) == 5 + a
  {
    EnumChoices("layer", required, words, 5);
    EnumChoices("algorithm", required, words, 4);
    EnumChoices("outcome", required, words, 5);
    EnumChoices("source", required, words, 9);
    EnumChoices("principal_kind", required, words, 5);
  }

  lemma FirstSixProduct(required: bool, words: Words)
    ensures Product(FirstSix(required), words) == if required then 4500 * |words.ids| else 10800 * (|words.ids| + 1)
  {
    SixLabels(Label(POLICY_ID, required), Label(PREFIX + "layer", required), Label(PREFIX + "algorithm", required),
              Label(PREFIX + "outcome", required), Label(PREFIX + "source", required), Label(PREFIX + "principal_kind", required), words);
    EnumSizes(required, words);
    Numbers(|words.ids|);
  }

  lemma Numbers(n: nat)
    ensures Times(Times(Times(Times(Times(n, 5), 4), 5), 9), 5) == 4500 * n
    ensures Times(Times(Times(Times(Times(n + 1, 6), 5), 6), 10), 6) == 10800 * (n + 1)
  {
  }

  lemma ThreeMore(first: seq<Label>, a: Label, b: Label, c: Label, words: Words)
    requires Choices(a, words) == 5 && Choices(b, words) == 7 && Choices(c, words) == 3
    ensures Product(first + [a] + [b] + [c], words) == 105 * Product(first, words)
  {
    ThreeLabels(first, a, b, c, words);
  }

  lemma LastThree(first: seq<Label>, words: Words)
    ensures Product(first + [Label(PREFIX + "failure_mode", false)] + [Label(PREFIX + "retry_bucket", false)] + [Label(OBSERVED_ONLY, false)], words) ==
              105 * Product(first, words)
  {
    EnumChoices("failure_mode", false, words, 4);
    EnumChoices("retry_bucket", false, words, 6);
    ThreeMore(first, Label(PREFIX + "failure_mode", false), Label(PREFIX + "retry_bucket", false), Label(OBSERVED_ONLY, false), words);
  }

  /** With at most 64 policy identifiers: thirty million label maps for decisions, seventy-four million otherwise. */
  lemma PinnedProduct(metricKey: string, words: Words)
    ensures Product(PinnedLabels(metricKey), words) == if metricKey == "decisions" then 472500 * |words.ids| else 1134000 * (|words.ids| + 1)
  {
    PinnedByName(metricKey);
    LastThree(FirstSix(metricKey == "decisions"), words);
    FirstSixProduct(metricKey == "decisions", words);
  }

  // ----- metrics the guard does not pin -----

  const SUFFIXES := ["layer", "algorithm", "outcome", "source", "principal_kind", "failure_mode", "retry_bucket"]
  const UNLISTED := ["policy_id", "observed_only"]

  function Prefixed(s: string): string { PREFIX + s }

  /** Enumerated labels are known with and without their prefix. */
  function AllNames(): seq<string> { SUFFIXES + Map(Prefixed, SUFFIXES + UNLISTED) }

  lemma OwnedNames(k: string)
    requires Owned(k)
    ensures k in AllNames()
  {
    if k == POLICY_ID {
      assert UNLISTED[0] == "policy_id" && k == Prefixed("policy_id");
      MapIn(Prefixed, SUFFIXES + UNLISTED, "policy_id");
    } else if k == OBSERVED_ONLY {
      assert UNLISTED[1] == "observed_only" && k == Prefixed("observed_only");
      MapIn(Prefixed, SUFFIXES + UNLISTED, "observed_only");
    } else {
      var s := Suffix(k);
      SuffixListed(s);
      if PREFIX <= k {
        assert k == Prefixed(s);
        MapIn(Prefixed, SUFFIXES + UNLISTED, s);
      }
    }
  }

  lemma SuffixListed(s: string)
    requires EnumBySuffix(s).Some?
    ensures s in SUFFIXES
  {
    assert SUFFIXES[0] == "layer" && SUFFIXES[1] == "algorithm" && SUFFIXES[2] == "outcome" && SUFFIXES[3] == "source";
    assert SUFFIXES[4] == "principal_kind" && SUFFIXES[5] == "failure_mode" && SUFFIXES[6] == "retry_bucket";
  }

  lemma SuffixesDistinct()
    ensures NoDup(SUFFIXES) && NoDup(SUFFIXES + UNLISTED)
    ensures forall s | s in SUFFIXES :: '.' !in s
  {
  }

  lemma PrefixedDistinct(names: seq<string>)
    requires NoDup(names)
    ensures NoDup(Map(Prefixed, names))
  {
    var all := Map(Prefixed, names);
    forall i, k | 0 <= i < k < |all| ensures all[i] != all[k] {
      if all[i] == all[k] {
        SuffixOf(names[i]);
        SuffixOf(names[k]);
      }
    }
  }

  lemma SuffixOf(s: string)
    ensures Suffix(Prefixed(s)) == s && '.' in Prefixed(s)
  {
    assert Prefixed(s)[4] == '.';
  }

  lemma AllNamesDistinct()
    ensures NoDup(AllNames())
  {
    SuffixesDistinct();
    PrefixedDistinct(SUFFIXES + UNLISTED);
    DottedApart(SUFFIXES, SUFFIXES + UNLISTED);
    NoDupAppend(SUFFIXES, Map(Prefixed, SUFFIXES + UNLISTED));
  }

  lemma NamesOfOptional(names: seq<string>)
    ensures Map(NameOfLabel, Map(Optional, names)) == names
  {
  }

  lemma DottedApart(plain: seq<string>, names: seq<string>)
    requires forall s | s in plain :: '.' !in s
    ensures forall s | s in plain :: s !in Map(Prefixed, names)
  {
    forall s | s in plain ensures s !in Map(Prefixed, names) {
      if s in Map(Prefixed, names) {
        var x := MapInInverse(Prefixed, names, s);
        SuffixOf(x);
      }
    }
  }

  /** The members of a finite set, in some order. */
  ghost function Listed(names: set<string>): seq<string> {
    if names == {} then [] else var x :| x in names; Listed(names - {x}) + [x]
  }

  lemma {:induction false} ListedMeans(names: set<string>)
    ensures NoDup(Listed(names)) && ToSet(Listed(names)) == names
  {
    if names != {} {
      var x :| x in names && Listed(names) == Listed(names - {x}) + [x];
      ListedMeans(names - {x});
      var rest := Listed(names - {x});
      assert x !in ToSet(rest);
      NoDupSnoc(rest, x);
      assert ToSet(rest + [x]) == ToSet(rest) + {x};
    }
  }

  /** Names that lead through an inherited name to a pinned enumeration. */
  function Detours(inherited: Inherited): set<string> {
    set k | k in inherited.Keys + (set s | s in inherited :: Prefixed(s)) && Detour(inherited, k)
  }

  predicate Detour(inherited: Inherited, k: string) {
    !Owned(k) && k !in AllNames() && Suffix(k) in inherited && inherited[Suffix(k)] in ENUM_NAMES
  }

  lemma DetourListed(inherited: Inherited, k: string)
    requires Detour(inherited, k)
    ensures k in Detours(inherited)
  {
    assert PREFIX <= k ==> k == Prefixed(Suffix(k));
  }

  ghost function WideNames(inherited: Inherited): seq<string> { AllNames() + Listed(Detours(inherited)) }

  ghost function OtherLabels(inherited: Inherited): seq<Label> { Map(Optional, WideNames(inherited)) }

  lemma OtherDistinct(inherited: Inherited)
    ensures NoDup(Map(NameOfLabel, OtherLabels(inherited)))
  {
    AllNamesDistinct();
    DetoursApart(inherited);
    NoDupAppend(AllNames(), Listed(Detours(inherited)));
    NamesOfOptional(WideNames(inherited));
  }

  lemma DetoursApart(inherited: Inherited)
    ensures NoDup(Listed(Detours(inherited))) && forall k | k in AllNames() :: k !in Listed(Detours(inherited))
  {
    var (names, all) := (Detours(inherited), AllNames());
    ListedMeans(names);
    forall k | k in Listed(names) ensures k !in all {
      assert k in ToSet(Listed(names));
      assert Detour(inherited, k);
    }
  }

  lemma AcceptedIsListed(inherited: Inherited, c: Json, policyIds: Json, key: string, value: Json)
    requires LabelOk(inherited, c, policyIds, key, value) && !Unpinned(inherited, key)
    ensures key in WideNames(inherited)
  {
    if Owned(key) {
      OwnedNames(key);
    } else if key !in AllNames() {
      DetourListed(inherited, key);
      ListedMeans(Detours(inherited));
    }
  }

  /** Every label map of names the pinned enumerations decide, whatever the metric. */
  ghost function OtherSpace(inherited: Inherited, ids: seq<string>): set<Labels> {
    Space(OtherLabels(inherited), Words(ids, inherited))
  }

  lemma OptionalFits(m: Labels, names: seq<string>, words: Words)
    requires forall k | k in m :: k in names && m[k] in Vocabulary(k, words)
    ensures Fits(m, Map(Optional, names), words)
  {
    var labels := Map(Optional, names);
    forall k | k in m ensures exists l | l in labels :: l.name == k {
      MapIn(Optional, names, k);
      assert Optional(k) in labels;
    }
    forall l | l in labels ensures !l.required {
      var x := MapInInverse(Optional, names, l);
    }
  }

  /** For any metric, as long as no label is read from an unpinned place: one finite set, whatever the contract. */
  lemma AnyMetricIsBounded(inherited: Inherited, c: Json, metricKey: string, attributes: Json, policyIds: Json)
    requires Admit(inherited, c, metricKey, attributes, policyIds).Some?
    requires forall k | Shape.Has(attributes, k) :: Tame(inherited, k)
    ensures Admit(inherited, c, metricKey, attributes, policyIds).value in OtherSpace(inherited, IdsOf(policyIds))
    ensures |OtherSpace(inherited, IdsOf(policyIds))| <= Product(OtherLabels(inherited), Words(IdsOf(policyIds), inherited))
  {
    var m := Admit(inherited, c, metricKey, attributes, policyIds).value;
    var (labels, words) := (OtherLabels(inherited), Words(IdsOf(policyIds), inherited));
    AdmittedLabels(inherited, c, metricKey, attributes, policyIds);
    forall k | k in m ensures k in WideNames(inherited) && m[k] in Vocabulary(k, words) {
      assert Shape.Has(attributes, k);
      AcceptedValue(inherited, c, policyIds, k, m[k]);
      AcceptedIsListed(inherited, c, policyIds, k, m[k]);
    }
    OptionalFits(m, WideNames(inherited), words);
    OtherDistinct(inherited);
    FitsIsInSpace(m, labels, words);
    SpaceSize(labels, words);
  }

  // ----- why the condition is needed -----

  function Texts(names: seq<string>): Json { Arr(Map(StrOf, names)) }

  function PlainMetric(names: seq<string>): Json { Obj(map["allowedAttributes" := Texts(names)]) }

  function ExpectedEnums(): map<string, Json> { map n | n in ENUM_NAMES :: Texts(ExpectedEnum(n)) }

  function Cardinality(): Json {
    Obj(map["policyIdIsStaticConfiguration" := Bool(true), "dynamicRouteLabelsAllowed" := Bool(false),
            "principalFingerprintAllowedInMetrics" := Bool(false), "policyIdMaxUtf8Bytes" := Num(128.0)])
  }

  function Attributes(): Json {
    Obj(map["traceOrLogOnly" := Texts(TRACE_ONLY), "requiredDecision" := Texts(REQUIRED_DECISION)])
  }

  function WiderEnums(enumName: string, value: Json): Json { Obj(map[enumName := Arr([value])] + ExpectedEnums()) }

  function WiderMetrics(name: string): Json {
    Obj((map n | n in PINNED_METRICS :: PlainMetric([])) + map["extra" := PlainMetric([name])])
  }

  function Contract(cardinality: Json, forbidden: Json, attributes: Json, enums: Json, metrics: Json): Json {
    Obj(map["schema" := Str("ores-otel/rate-limit-telemetry/v1"), "cardinality" := cardinality, "forbiddenAttributes" := forbidden,
            "attributes" := attributes, "enums" := enums, "metrics" := metrics])
  }

  lemma ContractMembers(cardinality: Json, forbidden: Json, attributes: Json, enums: Json, metrics: Json)
    ensures var c := Contract(cardinality, forbidden, attributes, enums, metrics);
            && Shape.Get(c, "schema") == Str("ores-otel/rate-limit-telemetry/v1")
            && Shape.Get(c, "cardinality") == cardinality && Shape.Get(c, "forbiddenAttributes") == forbidden
            && Shape.Get(c, "attributes") == attributes && Shape.Get(c, "enums") == enums && Shape.Get(c, "metrics") == metrics
  {
  }

  /** A contract the guard trusts, with one more metric and one more enumeration. */
  function WiderContract(enumName: string, value: Json, name: string): Json {
    Contract(Cardinality(), Texts(FORBIDDEN), Attributes(), WiderEnums(enumName, value), WiderMetrics(name))
  }

  lemma InTexts(names: seq<string>, s: string)
    ensures Includes(Texts(names), s) <==> s in names
  {
    if s in names {
      MapIn(StrOf, names, s);
    }
    if Str(s) in Map(StrOf, names) {
      var x := MapInInverse(StrOf, names, Str(s));
    }
  }

  lemma CardinalityOk()
    ensures var card := Cardinality();
            && Shape.Get(card, "policyIdIsStaticConfiguration") == Bool(true)
            && Shape.Get(card, "dynamicRouteLabelsAllowed") == Bool(false)
            && Shape.Get(card, "principalFingerprintAllowedInMetrics") == Bool(false)
            && Shape.Get(card, "policyIdMaxUtf8Bytes") == Num(128.0)
  {
  }

  lemma AttributesOk()
    ensures Shape.Get(Attributes(), "traceOrLogOnly") == Texts(TRACE_ONLY)
    ensures Shape.Get(Attributes(), "requiredDecision") == Texts(REQUIRED_DECISION)
    ensures forall n | n in TRACE_ONLY :: Includes(Texts(TRACE_ONLY), n)
    ensures forall n | n in REQUIRED_DECISION :: Includes(Texts(REQUIRED_DECISION), n)
  {
    forall n | n in TRACE_ONLY ensures Includes(Texts(TRACE_ONLY), n) {
      InTexts(TRACE_ONLY, n);
    }
    forall n | n in REQUIRED_DECISION ensures Includes(Texts(REQUIRED_DECISION), n) {
      InTexts(REQUIRED_DECISION, n);
    }
  }

  lemma WiderEnumsOk(enumName: string, value: Json)
    requires enumName !in ENUM_NAMES
    ensures Shape.Get(WiderEnums(enumName, value), enumName) == Arr([value])
    ensures forall n | n in ENUM_NAMES :: PinnedEnum(Shape.Get(WiderEnums(enumName, value), n), ExpectedEnum(n))
  {
  }

  lemma WiderMetricsOk(name: string)
    ensures forall n | n in PINNED_METRICS :: PinnedMetric(Shape.Get(WiderMetrics(name), n))
    ensures Shape.Get(WiderMetrics(name), "extra") == PlainMetric([name])
  {
    ExtraIsNew();
    assert Shape.Get(PlainMetric([]), "allowedAttributes") == Texts([]);
    forall n | n in PINNED_METRICS ensures PinnedMetric(Shape.Get(WiderMetrics(name), n)) {
      assert Shape.Get(WiderMetrics(name), n) == PlainMetric([]);
    }
  }

  lemma ExtraIsNew()
    ensures "extra" !in PINNED_METRICS
  {
  }

  lemma Trusted(c: Json, card: Json, forbidden: Json, attr: Json, enums: Json, metrics: Json)
    requires Shape.Get(c, "cardinality") == card && Shape.Get(c, "forbiddenAttributes") == forbidden
    requires Shape.Get(c, "attributes") == attr && Shape.Get(c, "enums") == enums && Shape.Get(c, "metrics") == metrics
    requires card == Cardinality() && attr == Attributes() && forbidden == Texts(FORBIDDEN)
    requires forall n | n in ENUM_NAMES :: PinnedEnum(Shape.Get(enums, n), ExpectedEnum(n))
    requires forall n | n in PINNED_METRICS :: PinnedMetric(Shape.Get(metrics, n))
    ensures TrustedContract(c)
  {
    CardinalityOk();
    AttributesOk();
    forall n | n in FORBIDDEN ensures Includes(forbidden, n) {
      InTexts(FORBIDDEN, n);
    }
  }

  lemma WiderIsTrusted(enumName: string, value: Json, name: string)
    requires enumName !in ENUM_NAMES
    ensures TrustedContract(WiderContract(enumName, value, name))
  {
    WiderEnumsOk(enumName, value);
    WiderMetricsOk(name);
    ContractMembers(Cardinality(), Texts(FORBIDDEN), Attributes(), WiderEnums(enumName, value), WiderMetrics(name));
    Trusted(WiderContract(enumName, value, name), Cardinality(), Texts(FORBIDDEN), Attributes(), WiderEnums(enumName, value), WiderMetrics(name));
  }

  /** One label, allowed by its metric and by nothing forbidden, is admitted as it is. */
  lemma OneLabelAdmitted(inherited: Inherited, c: Json, metricKey: string, name: string, value: Json, policyIds: Json)
    requires c.Obj? && Shape.Get(c, "schema") == Str("ores-otel/rate-limit-telemetry/v1") && TrustedContract(c) && PolicyIdsOk(policyIds)
    requires Shape.Get(c, "metrics").Obj? && Shape.Get(c, "attributes").Obj? && Shape.Get(c, "enums").Obj? && Shape.Get(c, "cardinality").Obj?
    requires metricKey != "decisions" && Shape.Get(Shape.Get(c, "metrics"), metricKey) == PlainMetric([name])
    requires !Includes(Shape.Get(c, "forbiddenAttributes"), name)
    requires !Includes(Shape.Get(Shape.Get(c, "attributes"), "traceOrLogOnly"), name)
    requires LabelOk(inherited, c, policyIds, name, value)
    ensures Admit(inherited, c, metricKey, Obj(map[name := value]), policyIds) == Some(map[name := value])
  {
    var labels := map[name := value];
    var allowed := Shape.Get(PlainMetric([name]), "allowedAttributes");
    assert allowed == Texts([name]) && allowed.items == [Str(name)];
    assert ToSet(allowed.items) == {Str(name)};
    assert labels.Keys == {name} && |labels| == |labels.Keys|;
  }

  /**
   * Under a label name that is not tame, some trusted contract admits any value at all.
   */
  lemma InheritedNamesWiden(inherited: Inherited, name: string, value: Json, policyIds: Json)
    requires !Tame(inherited, name) && PolicyIdsOk(policyIds)
    ensures Admit(inherited, WiderContract(inherited[Suffix(name)], value, name), "extra", Obj(map[name := value]), policyIds) ==
              Some(map[name := value])
  {
    var text := inherited[Suffix(name)];
    var c := WiderContract(text, value, name);
    WiderIsTrusted(text, value, name);
    ContractMembers(Cardinality(), Texts(FORBIDDEN), Attributes(), WiderEnums(text, value), WiderMetrics(name));
    WiderMetricsOk(name);
    WiderEnumsOk(text, value);
    AttributesOk();
    InTexts(FORBIDDEN, name);
    InTexts(TRACE_ONLY, name);
    OneLabelAdmitted(inherited, c, "extra", name, value, policyIds);
  }

  // ----- exactly when the admitted label maps are bounded -----

  /** Every label has one of these names. */
  ghost predicate Carries(attributes: Json, names: iset<string>) {
    forall k | Shape.Has(attributes, k) :: k in names
  }

  /** The set holds whatever any contract admits for any metric with labels of these names. */
  ghost predicate Bounds(bound: set<Labels>, inherited: Inherited, names: iset<string>, policyIds: Json) {
    forall c, metricKey, attributes |
      Admit(inherited, c, metricKey, attributes, policyIds).Some? && Carries(attributes, names) ::
      Admit(inherited, c, metricKey, attributes, policyIds).value in bound
  }

  /** A label with a number for its value. */
  function Numbered(name: string, n: nat): Labels { map[name := Num(n as real)] }

  lemma NumberedValue(name: string, n: nat)
    ensures name in Numbered(name, n) && Numbered(name, n)[name] == Num(n as real) && (n as real).Floor == n
  {
  }

  /** No finite set of label maps holds every value of a label. */
  lemma {:induction false} ValueOutside(bound: set<Labels>, name: string) returns (n: nat)
    ensures forall m: nat | m >= n :: Numbered(name, m) !in bound
  {
    if bound == {} {
      n := 0;
    } else {
      var x: Labels :| x in bound;
      n := ValueOutside(bound - {x}, name);
      if name in x && x[name].Num? && x[name].n.Floor >= n {
        n := x[name].n.Floor + 1;
      }
      forall m: nat | m >= n ensures Numbered(name, m) !in bound {
        NumberedValue(name, m);
      }
    }
  }

  lemma BoundHolds(bound: set<Labels>, inherited: Inherited, names: iset<string>, policyIds: Json, c: Json, metricKey: string, m: Labels)
    requires Bounds(bound, inherited, names, policyIds) && Admit(inherited, c, metricKey, Obj(m), policyIds) == Some(m)
    requires forall k | k in m :: k in names
    ensures m in bound
  {
    assert Carries(Obj(m), names);
  }

  lemma BoundedIsTame(bound: set<Labels>, inherited: Inherited, names: iset<string>, policyIds: Json, name: string)
    requires PolicyIdsOk(policyIds) && Bounds(bound, inherited, names, policyIds) && name in names
    ensures Tame(inherited, name)
  {
    if !Tame(inherited, name) {
      var n := ValueOutside(bound, name);
      var c := WiderContract(inherited[Suffix(name)], Num(n as real), name);
      InheritedNamesWiden(inherited, name, Num(n as real), policyIds);
      BoundHolds(bound, inherited, names, policyIds, c, "extra", Numbered(name, n));
    }
  }

  lemma TameIsBounded(inherited: Inherited, names: iset<string>, policyIds: Json)
    requires forall k | k in names :: Tame(inherited, k)
    ensures Bounds(OtherSpace(inherited, IdsOf(policyIds)), inherited, names, policyIds)
  {
    var bound := OtherSpace(inherited, IdsOf(policyIds));
    forall c, metricKey, attributes |
      Admit(inherited, c, metricKey, attributes, policyIds).Some? && Carries(attributes, names)
      ensures Admit(inherited, c, metricKey, attributes, policyIds).value in bound
    {
      AnyMetricIsBounded(inherited, c, metricKey, attributes, policyIds);
    }
  }

  /**
   * Over all contracts and metrics, labels of these names have finitely many admitted maps
   * exactly when every name is tame.
   */
  lemma BoundedIffTame(inherited: Inherited, names: iset<string>, policyIds: Json)
    requires PolicyIdsOk(policyIds)
    ensures (exists bound :: Bounds(bound, inherited, names, policyIds)) <==> forall k | k in names :: Tame(inherited, k)
  {
    if bound :| Bounds(bound, inherited, names, policyIds) {
      forall k | k in names ensures Tame(inherited, k) {
        BoundedIsTame(bound, inherited, names, policyIds, k);
      }
    }
    if forall k | k in names :: Tame(inherited, k) {
      TameIsBounded(inherited, names, policyIds);
    }
  }

  lemma ConstructorIsUnknown()
    ensures Suffix("constructor") == "constructor" && EnumBySuffix("constructor").None?
    ensures "constructor" != POLICY_ID && "constructor" != OBSERVED_ONLY
    ensures "constructor" !in FORBIDDEN && "constructor" !in TRACE_ONLY
  {
  }

  /** A name every object inherits is not tame, so the label maps of an unpinned metric are not bounded. */
  lemma ConstructorIsNotTame(text: string)
    requires text !in ENUM_NAMES
    ensures !Tame(map["constructor" := text], "constructor")
  {
    ConstructorIsUnknown();
  }
}
