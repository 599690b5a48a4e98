/** When the label gate admits, label by label, with every name and value written out. */
module MetricRules {
  import opened Seqs
  import opened Json
  import opened Metrics
  import Shape

  // ----- the rule -----

  /** With its prefix or without. */
  predicate Called(key: string, name: string) { key == name || key == "ores.rate_limit." + name }

  /** What a label may carry: a configured policy identifier, a boolean, or one of a few words. */
  predicate Carries(key: string, value: Json, policyIds: Json) {
    if key == "ores.rate_limit.policy_id" then policyIds.Arr? && value in policyIds.items
    else if key == "ores.rate_limit.observed_only" then value.Bool?
    else value.Str? && Word(key, value.s)
  }

  predicate Word(key: string, value: string) {
    || (Called(key, "layer") && value in ["edge", "load_balancer", "service", "authentication", "data_store"])
    || (Called(key, "algorithm") && value in ["token_bucket", "fixed_window", "sliding_window", "concurrency"])
    || (Called(key, "outcome") && value in ["allow", "deny", "observe_only_overage", "bypass", "degraded_allow"])
    || (Called(key, "source") && value in ["cloudflare_binding", "cloudflare_deny_cache", "ingress_nginx", "envoy_local",
         "traefik_local", "local_memory", "redis_authoritative", "redis_deny_cache", "data_store"])
    || (Called(key, "principal_kind") && value in ["anonymous_ip", "authenticated_subject", "service_identity", "tenant", "composite"])
    || (Called(key, "failure_mode") && value in ["fail_open", "fail_closed", "local_fallback", "not_applicable"])
    || (Called(key, "retry_bucket") && value in ["none", "lt_1s", "1s_10s", "10s_60s", "1m_5m", "gt_5m"])
  }

  function AllowedBy(c: Json, metricKey: string): Json {
    Shape.Get(Shape.Get(Shape.Get(c, "metrics"), metricKey), "allowedAttributes")
  }

  predicate ForbiddenBy(c: Json, key: string) {
    Includes(Shape.Get(c, "forbiddenAttributes"), key) || Includes(Shape.Get(Shape.Get(c, "attributes"), "traceOrLogOnly"), key)
  }

  const DECISION_LABELS := [
    "ores.rate_limit.policy_id", "ores.rate_limit.layer", "ores.rate_limit.algorithm", "ores.rate_limit.outcome",
    "ores.rate_limit.source", "ores.rate_limit.principal_kind"]
  const OTHER_LABELS := ["ores.rate_limit.failure_mode", "ores.rate_limit.retry_bucket", "ores.rate_limit.observed_only"]

  predicate IncludesAll(j: Json, names: seq<string>) { j.Arr? && forall n | n in names :: Str(n) in j.items }
  predicate ListIs(j: Json, words: seq<string>) { j.Arr? && |j.items| == |words| && forall i | 0 <= i < |words| :: j.items[i] == Str(words[i]) }

  predicate CardinalityTrusted(j: Json) {
    && j.Obj?
    && Shape.Get(j, "policyIdIsStaticConfiguration") == Bool(true) && Shape.Get(j, "dynamicRouteLabelsAllowed") == Bool(false)
    && Shape.Get(j, "principalFingerprintAllowedInMetrics") == Bool(false) && Shape.Get(j, "policyIdMaxUtf8Bytes") == Num(128.0)
  }

  predicate AttributesTrusted(j: Json) {
    && j.Obj?
    && IncludesAll(Shape.Get(j, "traceOrLogOnly"), ["ores.rate_limit.principal_fingerprint", "trace_id", "http.request_id"])
    && IncludesAll(Shape.Get(j, "requiredDecision"), DECISION_LABELS) && |Shape.Get(j, "requiredDecision").items| == 6
  }

  predicate EnumsTrusted(j: Json) {
    && j.Obj?
    && ListIs(Shape.Get(j, "layer"), ["edge", "load_balancer", "service", "authentication", "data_store"])
    && ListIs(Shape.Get(j, "algorithm"), ["token_bucket", "fixed_window", "sliding_window", "concurrency"])
    && ListIs(Shape.Get(j, "outcome"), ["allow", "deny", "observe_only_overage", "bypass", "degraded_allow"])
    && ListIs(Shape.Get(j, "source"), ["cloudflare_binding", "cloudflare_deny_cache", "ingress_nginx", "envoy_local",
         "traefik_local", "local_memory", "redis_authoritative", "redis_deny_cache", "data_store"])
    && ListIs(Shape.Get(j, "principalKind"), ["anonymous_ip", "authenticated_subject", "service_identity", "tenant", "composite"])
    && ListIs(Shape.Get(j, "failureMode"), ["fail_open", "fail_closed", "local_fallback", "not_applicable"])
    && ListIs(Shape.Get(j, "retryBucket"), ["none", "lt_1s", "1s_10s", "10s_60s", "1m_5m", "gt_5m"])
  }

  predicate MetricTrusted(j: Json) {
    && j.Obj? && Shape.Get(j, "allowedAttributes").Arr?
    && forall x | x in Shape.Get(j, "allowedAttributes").items :: x.Str? && (x.s in DECISION_LABELS || x.s in OTHER_LABELS)
  }

  predicate MetricsTrusted(j: Json) {
    && j.Obj? && MetricTrusted(Shape.Get(j, "decisions")) && MetricTrusted(Shape.Get(j, "backendErrors"))
    && MetricTrusted(Shape.Get(j, "cacheEntries")) && MetricTrusted(Shape.Get(j, "retryAfter"))
  }

  /** A contract of the fixed version that keeps its privacy constraints. */
  predicate Recognised(c: Json) {
    && Shape.Get(c, "schema") == Str("ores-otel/rate-limit-telemetry/v1")
    && CardinalityTrusted(Shape.Get(c, "cardinality"))
    && IncludesAll(Shape.Get(c, "forbiddenAttributes"), [
         "authorization", "cookie", "email", "ip", "client_ip", "user_id", "tenant_id", "session_id", "subject", "token",
         "principal", "principal_digest", "rate_limit_key", "redis_key", "cache_key"])
    && AttributesTrusted(Shape.Get(c, "attributes")) && EnumsTrusted(Shape.Get(c, "enums")) && MetricsTrusted(Shape.Get(c, "metrics"))
  }

  /** Between one and sixty-four distinct identifiers of small letters, digits, dots, underscores and hyphens. */
  predicate IdsConfigured(j: Json) {
    && j.Arr? && 1 <= |j.items| <= 64
    && (forall i, k | 0 <= i < k < |j.items| :: j.items[i] != j.items[k])
    && forall x | x in j.items :: x.Str? && IdSpelled(x.s)
  }

  predicate IdSpelled(s: string) {
    && 1 <= |s| <= 128 && s[0] !in ['.', '_', '-']
    && forall c | c in s :: 'a' <= c <= 'z' || '0' <= c <= '9' || c in ['.', '_', '-']
  }

  /** The metric is known, each of at most twelve labels is allowed and carries what it may, and a decision is complete. */
  predicate Lawful(c: Json, metricKey: string, attributes: Json, policyIds: Json) {
    && AllowedBy(c, metricKey).Arr? && attributes.Obj? && |attributes.members| <= 12
    && (forall k | k in attributes.members ::
         Includes(AllowedBy(c, metricKey), k) && !ForbiddenBy(c, k) && Carries(k, attributes.members[k], policyIds))
    && (metricKey == "decisions" ==> forall r | r in DECISION_LABELS :: r in attributes.members)
  }

  // ----- values, word by word -----

  lemma SuffixIs(key: string, name: string)
    requires |name| < 16
    ensures Suffix(key) == name <==> Called(key, name)
  {
    assert |PREFIX| == 16 && |"ores.rate_limit." + name| == 16 + |name|;
    assert ("ores.rate_limit." + name)[16..] == name;
    if PREFIX <= key {
      assert key == PREFIX + key[16..];
    }
  }

  /** The same words by suffix. */
  predicate SuffixWord(s: string, value: string) {
    || (s == "layer" && value in ExpectedEnum("layer"))
    || (s == "algorithm" && value in ExpectedEnum("algorithm"))
    || (s == "outcome" && value in ExpectedEnum("outcome"))
    || (s == "source" && value in ExpectedEnum("source"))
    || (s == "principal_kind" && value in ExpectedEnum("principalKind"))
    || (s == "failure_mode" && value in ExpectedEnum("failureMode"))
    || (s == "retry_bucket" && value in ExpectedEnum("retryBucket"))
  }

  lemma SuffixWordIs(s: string, value: string)
    ensures SuffixWord(s, value) <==> EnumBySuffix(s).Some? && value in ExpectedEnum(EnumBySuffix(s).value)
  {
  }

  lemma Words()
    ensures ExpectedEnum("layer") == ["edge", "load_balancer", "service", "authentication", "data_store"]
    ensures ExpectedEnum("algorithm") == ["token_bucket", "fixed_window", "sliding_window", "concurrency"]
    ensures ExpectedEnum("outcome") == ["allow", "deny", "observe_only_overage", "bypass", "degraded_allow"]
    ensures ExpectedEnum("source") == ["cloudflare_binding", "cloudflare_deny_cache", "ingress_nginx", "envoy_local",
              "traefik_local", "local_memory", "redis_authoritative", "redis_deny_cache", "data_store"]
    ensures ExpectedEnum("principalKind") == ["anonymous_ip", "authenticated_subject", "service_identity", "tenant", "composite"]
    ensures ExpectedEnum("failureMode") == ["fail_open", "fail_closed", "local_fallback", "not_applicable"]
    ensures ExpectedEnum("retryBucket") == ["none", "lt_1s", "1s_10s", "10s_60s", "1m_5m", "gt_5m"]
  {
  }

  /** Seven names, seven enumerations. */
  lemma WordIs(key: string, value: string)
    ensures Word(key, value) <==> EnumBySuffix(Suffix(key)).Some? && value in ExpectedEnum(EnumBySuffix(Suffix(key)).value)
  {
    SuffixIs(key, "layer");
    SuffixIs(key, "algorithm");
    SuffixIs(key, "outcome");
    SuffixIs(key, "source");
    SuffixIs(key, "principal_kind");
    SuffixIs(key, "failure_mode");
    SuffixIs(key, "retry_bucket");
    Words();
    SuffixWordIs(Suffix(key), value);
  }

  /** A pinned enumeration holds the expected words and nothing else. */
  lemma EnumHolds(c: Json, n: string, value: Json)
    requires TrustedContract(c) && n in ENUM_NAMES
    ensures var e := Shape.Get(Shape.Get(c, "enums"), n);
            e.Arr? && (value in e.items <==> value.Str? && value.s in ExpectedEnum(n))
  {
    var (e, expected) := (Shape.Get(Shape.Get(c, "enums"), n), ExpectedEnum(n));
    assert PinnedEnum(e, expected);
    if value.Str? && value.s in expected {
      var i :| 0 <= i < |expected| && expected[i] == value.s;
      assert e.items[i] == value;
    }
  }

  /** The look-up in the contract accepts what the label may carry. */
  lemma LabelOkIff(inherited: Inherited, c: Json, policyIds: Json, key: string, value: Json)
    requires TrustedContract(c) && (Owned(key) || Suffix(key) !in inherited)
    ensures LabelOk(inherited, c, policyIds, key, value) <==> Carries(key, value, policyIds)
  {
    if key != POLICY_ID && key != OBSERVED_ONLY {
      var n := EnumBySuffix(Suffix(key));
      if n.Some? {
        SuffixEnums(Suffix(key));
        EnumHolds(c, n.value, value);
      }
      if value.Str? {
        WordIs(key, value.s);
      }
    }
  }

  // ----- completeness of a decision -----

  /** As many items as names, all of the names among them: those names and no others. */
  lemma NoOthers(items: seq<Json>, wanted: seq<string>, x: Json)
    requires NoDup(wanted) && |items| == |wanted| && (forall n | n in wanted :: Str(n) in items) && x in items
    ensures x.Str? && x.s in wanted
  {
    var names := Map(StrOf, wanted);
    forall i, j | 0 <= i < j < |names| ensures names[i] != names[j] {
      assert names[i] == Str(wanted[i]) && names[j] == Str(wanted[j]);
    }
    SetSize(names);
    forall n | n in names ensures n in items {
      var s := MapInInverse(StrOf, wanted, n);
    }
    SetSize(items);
    SubsetOfSameSize(ToSet(names), ToSet(items));
    assert x in ToSet(items);
    var s := MapInInverse(StrOf, wanted, x);
  }

  lemma RequiredDistinct()
    ensures NoDup(REQUIRED_DECISION)
  {
    NamesDistinct();
    assert REQUIRED_DECISION == (REQUIRED_DECISION + OPTIONAL_NAMES)[..6];
  }

  lemma RequiredAre(c: Json, x: Json)
    requires TrustedContract(c) && x in Shape.Get(Shape.Get(c, "attributes"), "requiredDecision").items
    ensures x.Str? && x.s in REQUIRED_DECISION
  {
    var required := Shape.Get(Shape.Get(c, "attributes"), "requiredDecision");
    RequiredDistinct();
    forall n | n in REQUIRED_DECISION ensures Str(n) in required.items {
      assert Includes(required, n);
    }
    NoOthers(required.items, REQUIRED_DECISION, x);
  }

  // ----- the count -----

  /** Allowed labels are never more than the list of allowed names has distinct entries. */
  lemma NoMoreThanAllowed(labels: Labels, allowed: seq<Json>)
    requires forall k | k in labels :: Str(k) in allowed
    ensures |labels| <= |ToSet(allowed)|
  {
    var names := set k | k in labels.Keys :: Str(k);
    NamesCount(labels.Keys);
    SubsetSize(names, ToSet(allowed));
    assert |labels| == |labels.Keys|;
  }

  lemma {:induction false} NamesCount(keys: set<string>)
    ensures |set k | k in keys :: Str(k)| == |keys|
  {
    if keys != {} {
      var x :| x in keys;
      NamesCount(keys - {x});
      assert (set k | k in keys :: Str(k)) == (set k | k in keys - {x} :: Str(k)) + {Str(x)};
    }
  }

  // ----- the contract, clause by clause -----

  lemma {:induction false} IncludesAllIff(j: Json, names: seq<string>)
    ensures IncludesAll(j, names) <==> j.Arr? && forall n | n in names :: Includes(j, n)
  {
  }

  lemma {:induction false} ListIff(j: Json, words: seq<string>)
    ensures ListIs(j, words) <==> PinnedEnum(j, words)
  {
  }

  predicate EnumPinned(j: Json, n: string) { PinnedEnum(Shape.Get(j, n), ExpectedEnum(n)) }
  predicate GateEnums(j: Json) { forall n | n in ENUM_NAMES :: EnumPinned(j, n) }
  predicate GateMetrics(j: Json) { forall n | n in PINNED_METRICS :: PinnedMetric(Shape.Get(j, n)) }
  predicate GateForbids(j: Json) { (forall n | n in FORBIDDEN :: Includes(j, n)) && j.Arr? }

  predicate GateAttributes(j: Json) {
    && (forall n | n in TRACE_ONLY :: Includes(Shape.Get(j, "traceOrLogOnly"), n)) && Shape.Get(j, "traceOrLogOnly").Arr?
    && Shape.Get(j, "requiredDecision").Arr? && |Shape.Get(j, "requiredDecision").items| == |REQUIRED_DECISION|
    && forall n | n in REQUIRED_DECISION :: Includes(Shape.Get(j, "requiredDecision"), n)
  }

  predicate GateCardinality(j: Json) {
    && Shape.Get(j, "policyIdIsStaticConfiguration") == Bool(true) && Shape.Get(j, "dynamicRouteLabelsAllowed") == Bool(false)
    && Shape.Get(j, "principalFingerprintAllowedInMetrics") == Bool(false) && Shape.Get(j, "policyIdMaxUtf8Bytes") == Num(128.0)
  }

  lemma {:induction false} ForSeven(p: string -> bool, a: string, b: string, c: string, d: string, e: string, f: string, g: string)
    ensures (forall n | n in [a, b, c, d, e, f, g] :: p(n)) <==> p(a) && p(b) && p(c) && p(d) && p(e) && p(f) && p(g)
  {
    var names := [a, b, c, d, e, f, g];
    assert names[0] == a && names[1] == b && names[2] == c && names[3] == d && names[4] == e && names[5] == f && names[6] == g;
  }

  function PinnedIn(j: Json): string -> bool { n => EnumPinned(j, n) }

  lemma {:induction false} SevenEnums(j: Json)
    ensures GateEnums(j) <==>
              && EnumPinned(j, "layer") && EnumPinned(j, "algorithm") && EnumPinned(j, "outcome") && EnumPinned(j, "source")
              && EnumPinned(j, "principalKind") && EnumPinned(j, "failureMode") && EnumPinned(j, "retryBucket")
  {
    ForSeven(PinnedIn(j), "layer", "algorithm", "outcome", "source", "principalKind", "failureMode", "retryBucket");
    assert GateEnums(j) <==> forall n | n in ENUM_NAMES :: PinnedIn(j)(n);
  }

  lemma {:induction false} EnumsIff(j: Json)
    requires j.Obj?
    ensures EnumsTrusted(j) <==> GateEnums(j)
  {
    SevenEnums(j);
    Words();
    ListIff(Shape.Get(j, "layer"), ExpectedEnum("layer"));
    ListIff(Shape.Get(j, "algorithm"), ExpectedEnum("algorithm"));
    ListIff(Shape.Get(j, "outcome"), ExpectedEnum("outcome"));
    ListIff(Shape.Get(j, "source"), ExpectedEnum("source"));
    ListIff(Shape.Get(j, "principalKind"), ExpectedEnum("principalKind"));
    ListIff(Shape.Get(j, "failureMode"), ExpectedEnum("failureMode"));
    ListIff(Shape.Get(j, "retryBucket"), ExpectedEnum("retryBucket"));
  }

  lemma {:induction false} MetricIff(j: Json)
    ensures MetricTrusted(j) <==> PinnedMetric(j)
  {
    assert DECISION_LABELS == REQUIRED_DECISION && OTHER_LABELS == OPTIONAL_NAMES;
  }

  lemma {:induction false} MetricsIff(j: Json)
    requires j.Obj?
    ensures MetricsTrusted(j) <==> GateMetrics(j)
  {
    assert PINNED_METRICS[0] == "decisions" && PINNED_METRICS[1] == "backendErrors" && PINNED_METRICS[2] == "cacheEntries" && PINNED_METRICS[3] == "retryAfter";
    MetricIff(Shape.Get(j, "decisions"));
    MetricIff(Shape.Get(j, "backendErrors"));
    MetricIff(Shape.Get(j, "cacheEntries"));
    MetricIff(Shape.Get(j, "retryAfter"));
  }

  lemma {:induction false} AttributesIff(j: Json)
    requires j.Obj?
    ensures AttributesTrusted(j) <==> GateAttributes(j)
  {
    IncludesAllIff(Shape.Get(j, "traceOrLogOnly"), TRACE_ONLY);
    IncludesAllIff(Shape.Get(j, "requiredDecision"), REQUIRED_DECISION);
    assert DECISION_LABELS == REQUIRED_DECISION;
  }

  /** What the gate asks of a contract. */
  predicate GateTrusts(c: Json) {
    && c.Obj? && Shape.Get(c, "schema") == Str("ores-otel/rate-limit-telemetry/v1") && Shape.Get(c, "metrics").Obj?
    && Shape.Get(c, "attributes").Obj? && Shape.Get(c, "enums").Obj? && Shape.Get(c, "cardinality").Obj? && TrustedContract(c)
  }

  lemma {:induction false} TrustedByParts(c: Json)
    ensures TrustedContract(c) <==>
              && GateCardinality(Shape.Get(c, "cardinality")) && GateForbids(Shape.Get(c, "forbiddenAttributes"))
              && GateAttributes(Shape.Get(c, "attributes")) && GateEnums(Shape.Get(c, "enums")) && GateMetrics(Shape.Get(c, "metrics"))
  {
  }

  lemma {:induction false} ForbidsIff(j: Json)
    ensures GateForbids(j) <==> IncludesAll(j, [
              "authorization", "cookie", "email", "ip", "client_ip", "user_id", "tenant_id", "session_id", "subject", "token",
              "principal", "principal_digest", "rate_limit_key", "redis_key", "cache_key"])
  {
    IncludesAllIff(j, FORBIDDEN);
  }

  lemma {:induction false} GateByParts(c: Json)
    ensures GateTrusts(c) <==>
              && Shape.Get(c, "schema") == Str("ores-otel/rate-limit-telemetry/v1")
              && Shape.Get(c, "cardinality").Obj? && GateCardinality(Shape.Get(c, "cardinality"))
              && GateForbids(Shape.Get(c, "forbiddenAttributes"))
              && Shape.Get(c, "attributes").Obj? && GateAttributes(Shape.Get(c, "attributes"))
              && Shape.Get(c, "enums").Obj? && GateEnums(Shape.Get(c, "enums"))
              && Shape.Get(c, "metrics").Obj? && GateMetrics(Shape.Get(c, "metrics"))
  {
    TrustedByParts(c);
  }

  lemma {:induction false} RecognisedIff(c: Json)
    ensures Recognised(c) <==> GateTrusts(c)
  {
    var (attr, enums, metrics) := (Shape.Get(c, "attributes"), Shape.Get(c, "enums"), Shape.Get(c, "metrics"));
    GateByParts(c);
    ForbidsIff(Shape.Get(c, "forbiddenAttributes"));
    if attr.Obj? && enums.Obj? && metrics.Obj? {
      AttributesIff(attr);
      EnumsIff(enums);
      MetricsIff(metrics);
    }
  }

  lemma {:induction false} IdIff(s: string)
    ensures IdSpelled(s) <==> Canonical(s) && |s| <= 128
  {
    if s != "" {
      assert s[0] in s;
    }
  }

  lemma {:induction false} IdsIff(j: Json)
    ensures IdsConfigured(j) <==> PolicyIdsOk(j)
  {
    if j.Arr? {
      SetSize(j.items);
      forall x | x in j.items ensures x.Str? && IdSpelled(x.s) <==> x.Str? && Canonical(x.s) && |x.s| <= 128 {
        if x.Str? {
          IdIff(x.s);
        }
      }
    }
  }

  // ----- admission -----

  lemma ForbiddenIff(c: Json, k: string)
    requires TrustedContract(c)
    ensures ForbiddenBy(c, k) <==>
              Str(k) in Shape.Get(c, "forbiddenAttributes").items + Shape.Get(Shape.Get(c, "attributes"), "traceOrLogOnly").items
  {
  }

  lemma CompleteIff(c: Json, labels: Labels)
    requires TrustedContract(c)
    ensures (exists r | r in Shape.Get(Shape.Get(c, "attributes"), "requiredDecision").items :: r.Str? && r.s !in labels) <==>
              exists r | r in REQUIRED_DECISION :: r !in labels
  {
    var items := Shape.Get(Shape.Get(c, "attributes"), "requiredDecision").items;
    if r :| r in REQUIRED_DECISION && r !in labels {
      assert Includes(Shape.Get(Shape.Get(c, "attributes"), "requiredDecision"), r);
      assert Str(r) in items && Str(r).Str? && Str(r).s !in labels;
    }
    if r :| r in items && r.Str? && r.s !in labels {
      RequiredAre(c, r);
    }
  }

  /** What the gate tests of every label, and what the rule asks of every label. */
  predicate Refused(inherited: Inherited, c: Json, allowed: seq<Json>, policyIds: Json, k: string, value: Json) {
    var forbidden := Shape.ItemsOf(Shape.Get(c, "forbiddenAttributes")) + Shape.ItemsOf(Shape.Get(Shape.Get(c, "attributes"), "traceOrLogOnly"));
    Str(k) !in allowed || Str(k) in forbidden || !LabelOk(inherited, c, policyIds, k, value)
  }

  lemma RefusedIff(inherited: Inherited, c: Json, allowed: seq<Json>, policyIds: Json, k: string, value: Json)
    requires TrustedContract(c) && (Owned(k) || Suffix(k) !in inherited)
    ensures Refused(inherited, c, allowed, policyIds, k, value) <==>
              !(Includes(Arr(allowed), k) && !ForbiddenBy(c, k) && Carries(k, value, policyIds))
  {
    LabelOkIff(inherited, c, policyIds, k, value);
    ForbiddenIff(c, k);
  }

  lemma LabelsIff(inherited: Inherited, c: Json, metricKey: string, labels: Labels, policyIds: Json)
    requires TrustedContract(c) && AllowedBy(c, metricKey).Arr? && forall k | k in labels :: Owned(k) || Suffix(k) !in inherited
    ensures (exists k | k in labels :: Refused(inherited, c, AllowedBy(c, metricKey).items, policyIds, k, labels[k])) <==>
              !forall k | k in labels :: Includes(AllowedBy(c, metricKey), k) && !ForbiddenBy(c, k) && Carries(k, labels[k], policyIds)
  {
    forall k | k in labels
      ensures Refused(inherited, c, AllowedBy(c, metricKey).items, policyIds, k, labels[k]) <==>
                !(Includes(AllowedBy(c, metricKey), k) && !ForbiddenBy(c, k) && Carries(k, labels[k], policyIds))
    {
      RefusedIff(inherited, c, AllowedBy(c, metricKey).items, policyIds, k, labels[k]);
    }
  }

  /** The gate in two tests on labels. */
  lemma GateOnLabels(inherited: Inherited, c: Json, metricKey: string, labels: Labels, policyIds: Json)
    requires GateTrusts(c) && PolicyIdsOk(policyIds) && AllowedBy(c, metricKey).Arr?
    ensures var allowed := AllowedBy(c, metricKey).items;
            Admit(inherited, c, metricKey, Obj(labels), policyIds) ==
              if |labels| > |ToSet(allowed)| || |labels| > 12
                 || (exists k | k in labels :: Refused(inherited, c, allowed, policyIds, k, labels[k]))
                 || (metricKey == "decisions" && exists r | r in REQUIRED_DECISION :: r !in labels) then None else Some(labels)
  {
    CompleteIff(c, labels);
  }

  lemma NothingAdmitted(inherited: Inherited, c: Json, metricKey: string, attributes: Json, policyIds: Json)
    requires !AllowedBy(c, metricKey).Arr? || !attributes.Obj?
    ensures Admit(inherited, c, metricKey, attributes, policyIds).None? && !Lawful(c, metricKey, attributes, policyIds)
  {
  }

  lemma LabelsAdmitted(inherited: Inherited, c: Json, metricKey: string, labels: Labels, policyIds: Json)
    requires GateTrusts(c) && PolicyIdsOk(policyIds) && AllowedBy(c, metricKey).Arr?
    requires forall k | k in labels :: Owned(k) || Suffix(k) !in inherited
    ensures Admit(inherited, c, metricKey, Obj(labels), policyIds) ==
              if Lawful(c, metricKey, Obj(labels), policyIds) then Some(labels) else None
  {
    assert DECISION_LABELS == REQUIRED_DECISION;
    GateOnLabels(inherited, c, metricKey, labels, policyIds);
    LabelsIff(inherited, c, metricKey, labels, policyIds);
    if forall k | k in labels :: Includes(AllowedBy(c, metricKey), k) {
      NoMoreThanAllowed(labels, AllowedBy(c, metricKey).items);
    }
  }

  /**
   * Labels that are not read through inherited names are admitted as they are under a recognised
   * contract and configured identifiers when they are lawful, and rejected otherwise.
   */
  lemma {:induction false} AdmittedIffLawful(inherited: Inherited, c: Json, metricKey: string, attributes: Json, policyIds: Json)
    requires attributes.Obj? ==> forall k | k in attributes.members :: Owned(k) || Suffix(k) !in inherited
    ensures Admit(inherited, c, metricKey, attributes, policyIds) ==
              if Recognised(c) && IdsConfigured(policyIds) && Lawful(c, metricKey, attributes, policyIds) then Some(attributes.members)
              else None
  {
    RecognisedIff(c);
    IdsIff(policyIds);
    if GateTrusts(c) && PolicyIdsOk(policyIds) {
      if AllowedBy(c, metricKey).Arr? && attributes.Obj? {
        LabelsAdmitted(inherited, c, metricKey, attributes.members, policyIds);
      } else {
        NothingAdmitted(inherited, c, metricKey, attributes, policyIds);
      }
    }
  }
}
