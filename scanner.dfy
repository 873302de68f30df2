/** The audit engine of internal/scanner/scanner.go: policy matching, the
    classification of the policy server's answer, the per-resource policy loop,
    and the namespace, all-namespaces and cluster-wide scans. The Kubernetes
    API, the label-selector library and the HTTP round trip are oracles in Env. */
module Scanner {
  import opened Wrappers
  import opened Report

  type Labels = map<string, string>

  /** A metav1.LabelSelector as a policy declares it. */
  datatype Requirement = Requirement(key: string, operator: string, values: seq<string>)
  datatype LabelSelector = LabelSelector(matchLabels: map<string, string>, matchExpressions: seq<Requirement>)

  /** A policy together with the URL of the policy server that evaluates it. */
  datatype Policy = Policy(name: string, policyServer: string, objectSelector: Option<LabelSelector>)

  /** An audited object: where it lives, its name and its labels. */
  datatype Resource = Resource(namespace: string, name: string, labels: Labels)

  datatype Gvr = Gvr(group: string, version: string, resource: string)

  /** The policies bound to one resource type. */
  datatype PolicyGroup = PolicyGroup(gvr: Gvr, policies: seq<Policy>)

  /** The policy catalog's answer; the source iterates a Go map of groups, so
      the order of `policiesByGvr` is whatever the runtime picks. */
  datatype PolicySet = PolicySet(policiesByGvr: seq<PolicyGroup>, policyNum: int, skippedNum: int)

  /** An object delivered by the pager: an unstructured resource, or anything else. */
  datatype ListItem = Unstructured(resource: Resource) | OtherObject

  /** What the pager delivers: the items in order, then possibly a listing error. */
  datatype Listing = Listing(items: seq<ListItem>, failure: Option<string>)

  datatype AdmissionReview = AdmissionReview(response: Option<AdmissionResponse>)

  /** How one POST to a policy server went. */
  datatype Exchange =
    | MarshalFailed(message: string)
    | RequestFailed(message: string)      // connection, TLS or timeout
    | BodyUnreadable(message: string)
    | Received(status: int, body: string, decoded: Option<AdmissionReview>)

  datatype EvalError =
    | MarshalError(message: string)
    | TransportError(message: string)
    | BodyReadError(message: string)
    | UnexpectedStatus(status: int, body: string)
    | UndecodableBody

  const StatusOK: int := 200

  datatype ScanError = ApiError(message: string) | NotUnstructured

  /** The collaborators of the scanner. */
  datatype Env = Env(
    selectorError: LabelSelector -> Option<string>,      // LabelSelectorAsSelector's error
    selects: (LabelSelector, Labels) -> bool,              // the compiled selector's Matches
    exchange: (string, Resource) -> Exchange,              // POST of the resource's review to a URL
    namespaceLookup: string -> Option<string>,             // GetNamespace's error
    namespacePolicies: string -> Result<PolicySet, string>,
    clusterPolicies: Result<PolicySet, string>,
    resources: (Gvr, string) -> Result<Listing, string>,  // GetResources then EachListItem
    auditedNamespaces: Result<seq<string>, string>)

  // ---------------------------------------------------------------------------
  // Matching and evaluation of one (policy, resource) pair

  datatype MatchOutcome = MatchOutcome(matches: bool, err: Option<string>)

  function PolicyMatches(env: Env, policy: Policy, resource: Resource): (r: MatchOutcome)
    ensures policy.objectSelector.None? ==> r == MatchOutcome(true, None)
    ensures r.err.Some? <==> policy.objectSelector.Some? && env.selectorError(policy.objectSelector.value).Some?
    ensures r.err.Some? ==> !r.matches
    ensures r.err.None? && policy.objectSelector.Some? ==>
      r.matches == env.selects(policy.objectSelector.value, resource.labels)
  {
    match policy.objectSelector
    case None => MatchOutcome(true, None)
    case Some(selector) =>
      match env.selectorError(selector)
      case Some(e) => MatchOutcome(false, Some(e))
      case None => MatchOutcome(env.selects(selector, resource.labels), None)
  }

  /** sendAdmissionReviewToPolicyServer after the round trip: a review only for
      status 200 with a decodable body. */
  function SendAdmissionReview(x: Exchange): (r: Result<AdmissionReview, EvalError>)
    ensures r.Success? <==> x.Received? && x.status == StatusOK && x.decoded.Some?
    ensures r.Success? ==> r.value == x.decoded.value
    ensures x.Received? && x.status != StatusOK ==> r == Failure(UnexpectedStatus(x.status, x.body))
  {
    match x
    case MarshalFailed(m) => Failure(MarshalError(m))
    case RequestFailed(m) => Failure(TransportError(m))
    case BodyUnreadable(m) => Failure(BodyReadError(m))
    case Received(status, body, decoded) =>
      if status != StatusOK then Failure(UnexpectedStatus(status, body))
      else if decoded.None? then Failure(UndecodableBody)
      else Success(decoded.value)
  }

  function Evaluate(env: Env, policy: Policy, resource: Resource): Result<AdmissionReview, EvalError>
  {
    SendAdmissionReview(env.exchange(policy.policyServer, resource))
  }

  /** The result row for one evaluated policy; a failed call reads no response. */
  function Entry(policy: Policy, outcome: Result<AdmissionReview, EvalError>): (e: ResultEntry)
    ensures e.policy == policy.name
    ensures e.errored <==> outcome.Failure?
    ensures e.errored ==> e.response.None?
    ensures outcome.Success? ==> e.response == outcome.value.response
  {
    match outcome
    case Success(review) => ResultEntry(policy.name, review.response, false)
    case Failure(_) => ResultEntry(policy.name, None, true)
  }

  // ---------------------------------------------------------------------------
  // The policy loop of auditResource / auditClusterResource

  /** The policies that apply to the resource, in order. */
  function Matching(env: Env, policies: seq<Policy>, resource: Resource): (m: seq<Policy>)
    ensures |m| <= |policies|
    ensures forall p :: p in m <==> p in policies && PolicyMatches(env, p, resource).matches
  {
    if policies == [] then []
    else
      var init := Matching(env, policies[..|policies| - 1], resource);
      var p := policies[|policies| - 1];
      assert policies == policies[..|policies| - 1] + [p];
      if PolicyMatches(env, p, resource).matches then init + [p] else init
  }

  /** The rows the policy loop appends: at most one per policy. */
  function AuditResults(env: Env, policies: seq<Policy>, resource: Resource): (rs: seq<ResultEntry>)
    ensures |rs| <= |policies|
  {
    if policies == [] then []
    else
      var init := AuditResults(env, policies[..|policies| - 1], resource);
      var p := policies[|policies| - 1];
      if PolicyMatches(env, p, resource).matches then init + [Entry(p, Evaluate(env, p, resource))] else init
  }

  /** Exactly one row per matching policy, in policy order, and none for the
      others: row k is the entry for the k-th matching policy's evaluation. */
  lemma {:induction false} AuditResultsFollowMatching(env: Env, policies: seq<Policy>, resource: Resource)
    ensures var m := Matching(env, policies, resource);
      var rs := AuditResults(env, policies, resource);
      && |rs| == |m|
      && forall k :: 0 <= k < |rs| ==> rs[k] == Entry(m[k], Evaluate(env, m[k], resource))
  {
    if policies != [] {
      AuditResultsFollowMatching(env, policies[..|policies| - 1], resource);
    }
  }

  /** Every row is errored exactly when its evaluator call failed. */
  lemma ErroredIffCallFailed(env: Env, policies: seq<Policy>, resource: Resource, k: nat)
    requires k < |AuditResults(env, policies, resource)|
    ensures var m := Matching(env, policies, resource);
      var row := AuditResults(env, policies, resource)[k];
      && k < |m|
      && row.policy == m[k].name
      && (row.errored <==> Evaluate(env, m[k], resource).Failure?)
      && (row.errored ==> row.response.None?)
  {
    AuditResultsFollowMatching(env, policies, resource);
  }

  /** Policies without a selector apply to every resource. */
  lemma {:induction false} NoSelectorMatchesAll(env: Env, policies: seq<Policy>, resource: Resource)
    requires forall p :: p in policies ==> p.objectSelector.None?
    ensures Matching(env, policies, resource) == policies
  {
    if policies != [] {
      var init := policies[..|policies| - 1];
      NoSelectorMatchesAll(env, init, resource);
      assert policies == init + [policies[|policies| - 1]];
    }
  }

  /** The policy loop: one evaluator call and one row per matching policy.
      `calls` lists the policies sent to a policy server, in order. */
  method AuditPolicies(env: Env, policies: seq<Policy>, resource: Resource)
    returns (results: seq<ResultEntry>, calls: seq<Policy>)
    ensures results == AuditResults(env, policies, resource)
    ensures calls == Matching(env, policies, resource)
  {
    results, calls := [], [];
    for i := 0 to |policies|
      invariant results == AuditResults(env, policies[..i], resource)
      invariant calls == Matching(env, policies[..i], resource)
    {
      var p := policies[i];
      assert policies[..i + 1][..i] == policies[..i];
      var matched := PolicyMatches(env, p, resource);
      if !matched.matches {
        continue;
      }
      var response := Evaluate(env, p, resource);
      calls := calls + [p];
      results := results + [Entry(p, response)];
    }
    assert policies[..|policies|] == policies;
  }

  /** auditResource: a fresh report for the resource, filled by the policy loop,
      then handed to the store. */
  method AuditResource(env: Env, policies: seq<Policy>, resource: Resource)
    returns (report: PolicyReport, calls: seq<Policy>)
    ensures report.namespace == resource.namespace && report.name == resource.name
    ensures report.results == AuditResults(env, policies, resource)
    ensures calls == Matching(env, policies, resource)
  {
    var results;
    results, calls := AuditPolicies(env, policies, resource);
    report := PolicyReport(resource.namespace, resource.name, results);
  }

  /** auditClusterResource: the same loop for a cluster-scoped resource. */
  method AuditClusterResource(env: Env, policies: seq<Policy>, resource: Resource)
    returns (report: ClusterPolicyReport, calls: seq<Policy>)
    ensures report.name == resource.name
    ensures report.results == AuditResults(env, policies, resource)
    ensures calls == Matching(env, policies, resource)
  {
    var results;
    results, calls := AuditPolicies(env, policies, resource);
    report := ClusterPolicyReport(resource.name, results);
  }

  // ---------------------------------------------------------------------------
  // The policy loop as written: it reads the response of every evaluated call

  /** The loop as the source writes it; None stands for the nil-pointer panic
      when a failed call's absent review is read (`auditResponse.Response`), or
      when a decoded review without a response is logged (`Response.UID`). */
  function AuditResultsAsWritten(env: Env, policies: seq<Policy>, resource: Resource): (r: Option<seq<ResultEntry>>)
    ensures r.Some? ==> r.value == AuditResults(env, policies, resource)
  {
    if policies == [] then Some([])
    else
      var init := AuditResultsAsWritten(env, policies[..|policies| - 1], resource);
      var p := policies[|policies| - 1];
      if init.None? || !PolicyMatches(env, p, resource).matches then init
      else
        match Evaluate(env, p, resource)
        case Failure(_) => None
        case Success(review) =>
          if review.response.None? then None
          else Some(init.value + [Entry(p, Success(review))])
  }

  /** As written, one failed evaluator call among the matching policies crashes
      the scan instead of producing an errored row. */
  lemma {:induction false} FailedCallPanicsAsWritten(env: Env, policies: seq<Policy>, resource: Resource, k: nat)
    requires k < |Matching(env, policies, resource)|
    requires Evaluate(env, Matching(env, policies, resource)[k], resource).Failure?
    ensures AuditResultsAsWritten(env, policies, resource).None?
  {
    var init := policies[..|policies| - 1];
    var p := policies[|policies| - 1];
    var m := Matching(env, init, resource);
    if k < |m| {
      FailedCallPanicsAsWritten(env, init, resource, k);
    }
  }

  /** As written, a 200 answer whose review carries no response crashes too. */
  lemma {:induction false} MissingResponsePanicsAsWritten(env: Env, policies: seq<Policy>, resource: Resource, k: nat)
    requires k < |Matching(env, policies, resource)|
    requires var e := Evaluate(env, Matching(env, policies, resource)[k], resource);
      e.Success? && e.value.response.None?
    ensures AuditResultsAsWritten(env, policies, resource).None?
  {
    var init := policies[..|policies| - 1];
    var m := Matching(env, init, resource);
    if k < |m| {
      MissingResponsePanicsAsWritten(env, init, resource, k);
    }
  }

  /** Where every call succeeds with a response, the loop as written and the
      corrected loop produce the same rows. */
  lemma {:induction false} AsWrittenAgreesWithoutFailures(env: Env, policies: seq<Policy>, resource: Resource)
    requires forall p :: p in Matching(env, policies, resource) ==>
      Evaluate(env, p, resource).Success? && Evaluate(env, p, resource).value.response.Some?
    ensures AuditResultsAsWritten(env, policies, resource) == Some(AuditResults(env, policies, resource))
  {
    if policies != [] {
      var init := policies[..|policies| - 1];
      AsWrittenAgreesWithoutFailures(env, init, resource);
    }
  }

  /** A concrete input: one policy without a selector whose server times out. */
  lemma TimeoutExample(env: Env, resource: Resource)
    requires env.exchange("https://policy-server", resource) == RequestFailed("timeout")
    ensures var policies := [Policy("p", "https://policy-server", None)];
      && AuditResultsAsWritten(env, policies, resource) == None
      && AuditResults(env, policies, resource) == [ResultEntry("p", None, true)]
  {
    var policies := [Policy("p", "https://policy-server", None)];
    assert policies[..0] == [];
  }

  // ---------------------------------------------------------------------------
  // Scans

  /** The rows produced for one audited resource. */
  datatype Audit = Audit(resource: Resource, results: seq<ResultEntry>)

  /** The audits done, in order, and the error that ended the scan, if any. */
  datatype ScanOutcome = ScanOutcome(audits: seq<Audit>, err: Option<ScanError>)

  /** The pager callback over a prefix of the items: an object that is not
      unstructured stops the iteration with an error. */
  function AuditItems(env: Env, policies: seq<Policy>, items: seq<ListItem>): ScanOutcome
  {
    if items == [] then ScanOutcome([], None)
    else
      var prev := AuditItems(env, policies, items[..|items| - 1]);
      if prev.err.Some? then prev
      else
        match items[|items| - 1]
        case OtherObject => ScanOutcome(prev.audits, Some(NotUnstructured))
        case Unstructured(r) => ScanOutcome(prev.audits + [Audit(r, AuditResults(env, policies, r))], None)
  }

  /** EachListItem over one listing: the items, then the listing's own error. */
  function ScanListing(env: Env, policies: seq<Policy>, listing: Listing): ScanOutcome
  {
    var o := AuditItems(env, policies, listing.items);
    if o.err.None? && listing.failure.Some? then ScanOutcome(o.audits, Some(ApiError(listing.failure.value)))
    else o
  }

  /** The loop over resource types, in `namespace` ("" for cluster-wide). */
  function ScanGroups(env: Env, namespace: string, groups: seq<PolicyGroup>): ScanOutcome
  {
    if groups == [] then ScanOutcome([], None)
    else
      var prev := ScanGroups(env, namespace, groups[..|groups| - 1]);
      var g := groups[|groups| - 1];
      if prev.err.Some? then prev
      else
        match env.resources(g.gvr, namespace)
        case Failure(m) => ScanOutcome(prev.audits, Some(ApiError(m)))
        case Success(listing) =>
          var o := ScanListing(env, g.policies, listing);
          ScanOutcome(prev.audits + o.audits, o.err)
  }

  function ScanNamespaceOutcome(env: Env, namespace: string): ScanOutcome
  {
    if env.namespaceLookup(namespace).Some? then ScanOutcome([], Some(ApiError(env.namespaceLookup(namespace).value)))
    else
      match env.namespacePolicies(namespace)
      case Failure(m) => ScanOutcome([], Some(ApiError(m)))
      case Success(catalog) => ScanGroups(env, namespace, catalog.policiesByGvr)
  }

  function ScanClusterOutcome(env: Env): ScanOutcome
  {
    match env.clusterPolicies
    case Failure(m) => ScanOutcome([], Some(ApiError(m)))
    case Success(catalog) => ScanGroups(env, "", catalog.policiesByGvr)
  }

  /** Once a prefix of the items fails, later items are never audited. */
  lemma {:induction false} AuditItemsStopAtFailure(env: Env, policies: seq<Policy>, items: seq<ListItem>, k: nat)
    requires k <= |items|
    requires AuditItems(env, policies, items[..k]).err.Some?
    ensures AuditItems(env, policies, items) == AuditItems(env, policies, items[..k])
    decreases |items| - k
  {
    if k < |items| {
      assert items[..|items| - 1][..k] == items[..k];
      AuditItemsStopAtFailure(env, policies, items[..|items| - 1], k);
    } else {
      assert items[..k] == items;
    }
  }

  /** Once a prefix of the resource types fails, later types are never listed. */
  lemma {:induction false} ScanGroupsStopAtFailure(env: Env, namespace: string, groups: seq<PolicyGroup>, k: nat)
    requires k <= |groups|
    requires ScanGroups(env, namespace, groups[..k]).err.Some?
    ensures ScanGroups(env, namespace, groups) == ScanGroups(env, namespace, groups[..k])
    decreases |groups| - k
  {
    if k < |groups| {
      assert groups[..|groups| - 1][..k] == groups[..k];
      ScanGroupsStopAtFailure(env, namespace, groups[..|groups| - 1], k);
    } else {
      assert groups[..k] == groups;
    }
  }

  /** Every unstructured item is audited exactly once, in order, whether or not
      any policy matched it, and each audit holds the policy loop's rows. */
  lemma {:induction false} AuditItemsOnePerResource(env: Env, policies: seq<Policy>, items: seq<ListItem>)
    requires forall k :: 0 <= k < |items| ==> items[k].Unstructured?
    ensures var o := AuditItems(env, policies, items);
      && o.err.None?
      && |o.audits| == |items|
      && forall k :: 0 <= k < |items| ==>
           o.audits[k] == Audit(items[k].resource, AuditResults(env, policies, items[k].resource))
  {
    if items != [] {
      var init := items[..|items| - 1];
      var last := items[|items| - 1].resource;
      AuditItemsOnePerResource(env, policies, init);
      var prev := AuditItems(env, policies, init);
      var o := AuditItems(env, policies, items);
      assert o == ScanOutcome(prev.audits + [Audit(last, AuditResults(env, policies, last))], None);
      forall k | 0 <= k < |items|
        ensures o.audits[k] == Audit(items[k].resource, AuditResults(env, policies, items[k].resource))
      {
        if k < |init| {
          assert items[k] == init[k];
        }
      }
    }
  }

  // The reports handed to the store, one per audit.

  function ToPolicyReport(a: Audit): PolicyReport
  {
    PolicyReport(a.resource.namespace, a.resource.name, a.results)
  }

  function ToClusterPolicyReport(a: Audit): ClusterPolicyReport
  {
    ClusterPolicyReport(a.resource.name, a.results)
  }

  function NamespacedReports(audits: seq<Audit>): (rs: seq<PolicyReport>)
    ensures |rs| == |audits|
    ensures forall k :: 0 <= k < |audits| ==> rs[k] == ToPolicyReport(audits[k])
  {
    seq(|audits|, k requires 0 <= k < |audits| => ToPolicyReport(audits[k]))
  }

  function ClusterReports(audits: seq<Audit>): (rs: seq<ClusterPolicyReport>)
    ensures |rs| == |audits|
    ensures forall k :: 0 <= k < |audits| ==> rs[k] == ToClusterPolicyReport(audits[k])
  {
    seq(|audits|, k requires 0 <= k < |audits| => ToClusterPolicyReport(audits[k]))
  }

  /** The EachListItem callback of ScanNamespace over the delivered items: each
      unstructured resource is audited and its report handed to the store; any
      other object stops the iteration. */
  method AuditListedResources(env: Env, policies: seq<Policy>, items: seq<ListItem>)
    returns (handed: seq<PolicyReport>, err: Option<ScanError>)
    ensures handed == NamespacedReports(AuditItems(env, policies, items).audits)
    ensures err == AuditItems(env, policies, items).err
  {
    handed := [];
    ghost var found: seq<Audit> := [];
    var j := 0;
    while j < |items|
      invariant 0 <= j <= |items|
      invariant AuditItems(env, policies, items[..j]) == ScanOutcome(found, None)
      invariant handed == NamespacedReports(found)
    {
      assert items[..j + 1][..j] == items[..j];
      if items[j].OtherObject? {
        AuditItemsStopAtFailure(env, policies, items, j + 1);
        return handed, Some(NotUnstructured);
      }
      var resource := items[j].resource;
      var report, _ := AuditResource(env, policies, resource);
      handed := handed + [report];
      found := found + [Audit(resource, report.results)];
      j := j + 1;
    }
    assert items[..|items|] == items;
    return handed, None;
  }

  /** The EachListItem callback of ScanClusterWideResources. */
  method AuditListedClusterResources(env: Env, policies: seq<Policy>, items: seq<ListItem>)
    returns (handed: seq<ClusterPolicyReport>, err: Option<ScanError>)
    ensures handed == ClusterReports(AuditItems(env, policies, items).audits)
    ensures err == AuditItems(env, policies, items).err
  {
    handed := [];
    ghost var found: seq<Audit> := [];
    var j := 0;
    while j < |items|
      invariant 0 <= j <= |items|
      invariant AuditItems(env, policies, items[..j]) == ScanOutcome(found, None)
      invariant handed == ClusterReports(found)
    {
      assert items[..j + 1][..j] == items[..j];
      if items[j].OtherObject? {
        AuditItemsStopAtFailure(env, policies, items, j + 1);
        return handed, Some(NotUnstructured);
      }
      var resource := items[j].resource;
      var report, _ := AuditClusterResource(env, policies, resource);
      handed := handed + [report];
      found := found + [Audit(resource, report.results)];
      j := j + 1;
    }
    assert items[..|items|] == items;
    return handed, None;
  }

  /** One more resource type on a scan that has not failed yet. */
  lemma ScanGroupsStep(env: Env, namespace: string, groups: seq<PolicyGroup>, i: nat, listing: Listing)
    requires i < |groups|
    requires ScanGroups(env, namespace, groups[..i]).err.None?
    requires env.resources(groups[i].gvr, namespace) == Success(listing)
    ensures ScanGroups(env, namespace, groups[..i + 1]) == ScanOutcome(
      ScanGroups(env, namespace, groups[..i]).audits + ScanListing(env, groups[i].policies, listing).audits,
      ScanListing(env, groups[i].policies, listing).err)
  {
    assert groups[..i + 1][..i] == groups[..i];
  }

  lemma NamespacedReportsConcat(a: seq<Audit>, b: seq<Audit>)
    ensures NamespacedReports(a + b) == NamespacedReports(a) + NamespacedReports(b)
  {
  }

  lemma ClusterReportsConcat(a: seq<Audit>, b: seq<Audit>)
    ensures ClusterReports(a + b) == ClusterReports(a) + ClusterReports(b)
  {
  }

  /** ScanNamespace: look the namespace up, fetch its policies, then audit every
      listed resource of every bound type; the first lookup, fetch, listing or
      paging error ends the scan. `handed` are the reports given to the store. */
  method ScanNamespace(env: Env, nsName: string) returns (handed: seq<PolicyReport>, err: Option<ScanError>)
    ensures handed == NamespacedReports(ScanNamespaceOutcome(env, nsName).audits)
    ensures err == ScanNamespaceOutcome(env, nsName).err
  {
    var lookup := env.namespaceLookup(nsName);
    if lookup.Some? {
      return [], Some(ApiError(lookup.value));
    }
    var policies := env.namespacePolicies(nsName);
    if policies.Failure? {
      return [], Some(ApiError(policies.error));
    }
    var groups := policies.value.policiesByGvr;
    handed := [];
    ghost var audits: seq<Audit> := [];
    var i := 0;
    while i < |groups|
      invariant 0 <= i <= |groups|
      invariant ScanGroups(env, nsName, groups[..i]) == ScanOutcome(audits, None)
      invariant handed == NamespacedReports(audits)
    {
      var g := groups[i];
      var pager := env.resources(g.gvr, nsName);
      if pager.Failure? {
        assert groups[..i + 1][..i] == groups[..i];
        ScanGroupsStopAtFailure(env, nsName, groups, i + 1);
        return handed, Some(ApiError(pager.error));
      }
      ScanGroupsStep(env, nsName, groups, i, pager.value);
      var more, listErr := AuditListedResources(env, g.policies, pager.value.items);
      NamespacedReportsConcat(audits, AuditItems(env, g.policies, pager.value.items).audits);
      handed := handed + more;
      audits := audits + AuditItems(env, g.policies, pager.value.items).audits;
      if listErr.Some? {
        ScanGroupsStopAtFailure(env, nsName, groups, i + 1);
        return handed, listErr;
      }
      if pager.value.failure.Some? {
        ScanGroupsStopAtFailure(env, nsName, groups, i + 1);
        return handed, Some(ApiError(pager.value.failure.value));
      }
      i := i + 1;
    }
    assert groups[..|groups|] == groups;
    return handed, None;
  }

  /** ScanClusterWideResources: the same scan over the cluster-wide policies and
      cluster-scoped resources. */
  method ScanClusterWideResources(env: Env) returns (handed: seq<ClusterPolicyReport>, err: Option<ScanError>)
    ensures handed == ClusterReports(ScanClusterOutcome(env).audits)
    ensures err == ScanClusterOutcome(env).err
  {
    var policies := env.clusterPolicies;
    if policies.Failure? {
      return [], Some(ApiError(policies.error));
    }
    var groups := policies.value.policiesByGvr;
    handed := [];
    ghost var audits: seq<Audit> := [];
    var i := 0;
    while i < |groups|
      invariant 0 <= i <= |groups|
      invariant ScanGroups(env, "", groups[..i]) == ScanOutcome(audits, None)
      invariant handed == ClusterReports(audits)
    {
      var g := groups[i];
      var pager := env.resources(g.gvr, "");
      if pager.Failure? {
        assert groups[..i + 1][..i] == groups[..i];
        ScanGroupsStopAtFailure(env, "", groups, i + 1);
        return handed, Some(ApiError(pager.error));
      }
      ScanGroupsStep(env, "", groups, i, pager.value);
      var more, listErr := AuditListedClusterResources(env, g.policies, pager.value.items);
      ClusterReportsConcat(audits, AuditItems(env, g.policies, pager.value.items).audits);
      handed := handed + more;
      audits := audits + AuditItems(env, g.policies, pager.value.items).audits;
      if listErr.Some? {
        ScanGroupsStopAtFailure(env, "", groups, i + 1);
        return handed, listErr;
      }
      if pager.value.failure.Some? {
        ScanGroupsStopAtFailure(env, "", groups, i + 1);
        return handed, Some(ApiError(pager.value.failure.value));
      }
      i := i + 1;
    }
    assert groups[..|groups|] == groups;
    return handed, None;
  }

  // ---------------------------------------------------------------------------
  // All namespaces

  /** The audits of every namespace scan and the joined errors (empty for nil). */
  datatype AllOutcome = AllOutcome(audits: seq<Audit>, errors: seq<ScanError>)

  function ErrorsOf(o: ScanOutcome): seq<ScanError>
  {
    if o.err.Some? then [o.err.value] else []
  }

  /** Folding namespace outcomes in order: audits are concatenated and every
      error is joined; nothing stops the fold. */
  function Collect(outcomes: seq<ScanOutcome>): AllOutcome
  {
    if outcomes == [] then AllOutcome([], [])
    else
      var prev := Collect(outcomes[..|outcomes| - 1]);
      var o := outcomes[|outcomes| - 1];
      AllOutcome(prev.audits + o.audits, prev.errors + ErrorsOf(o))
  }

  /** The outcome of scanning each namespace on its own. */
  function NamespaceOutcomes(env: Env, namespaces: seq<string>): (os: seq<ScanOutcome>)
    ensures |os| == |namespaces|
    ensures forall k :: 0 <= k < |namespaces| ==> os[k] == ScanNamespaceOutcome(env, namespaces[k])
  {
    seq(|namespaces|, k requires 0 <= k < |namespaces| => ScanNamespaceOutcome(env, namespaces[k]))
  }

  /** The namespace loop: every namespace is scanned whatever happened before. */
  function ScanEach(env: Env, namespaces: seq<string>): AllOutcome
  {
    Collect(NamespaceOutcomes(env, namespaces))
  }

  /** The namespaces the scan visits; a failed listing visits none. */
  function AuditedList(env: Env): seq<string>
  {
    if env.auditedNamespaces.Success? then env.auditedNamespaces.value else []
  }

  function ScanAllOutcome(env: Env): AllOutcome
  {
    match env.auditedNamespaces
    case Failure(m) => AllOutcome([], [ApiError(m)])
    case Success(namespaces) => ScanEach(env, namespaces)
  }

  lemma {:induction false} CollectConcat(a: seq<ScanOutcome>, b: seq<ScanOutcome>)
    ensures Collect(a + b) ==
      AllOutcome(Collect(a).audits + Collect(b).audits, Collect(a).errors + Collect(b).errors)
    decreases |b|
  {
    if b == [] {
      assert a + b == a;
    } else {
      var init, last := b[..|b| - 1], b[|b| - 1];
      assert (a + b)[..|a + b| - 1] == a + init;
      assert (a + b)[|a + b| - 1] == last;
      CollectConcat(a, init);
      var left, right := Collect(a), Collect(init);
      assert Collect(a + b) == AllOutcome((left.audits + right.audits) + last.audits, (left.errors + right.errors) + ErrorsOf(last));
      assert Collect(b) == AllOutcome(right.audits + last.audits, right.errors + ErrorsOf(last));
    }
  }

  lemma {:induction false} CollectNoErrorsIff(outcomes: seq<ScanOutcome>)
    ensures Collect(outcomes).errors == [] <==> forall k :: 0 <= k < |outcomes| ==> outcomes[k].err.None?
  {
    if outcomes != [] {
      var init := outcomes[..|outcomes| - 1];
      CollectNoErrorsIff(init);
      assert forall k :: 0 <= k < |init| ==> init[k] == outcomes[k];
    }
  }

  /** A namespace's outcome does not depend on the namespaces before it: the
      scan of a + b is the scan of a followed by the scan of b. */
  lemma ScanEachConcat(env: Env, a: seq<string>, b: seq<string>)
    ensures ScanEach(env, a + b) ==
      AllOutcome(ScanEach(env, a).audits + ScanEach(env, b).audits, ScanEach(env, a).errors + ScanEach(env, b).errors)
  {
    var whole, left, right := NamespaceOutcomes(env, a + b), NamespaceOutcomes(env, a), NamespaceOutcomes(env, b);
    forall k | 0 <= k < |whole|
      ensures whole[k] == (left + right)[k]
    {
      if k < |a| {
        assert (a + b)[k] == a[k];
      } else {
        assert (a + b)[k] == b[k - |a|];
      }
    }
    assert whole == left + right;
    CollectConcat(left, right);
  }

  /** The joined error is nil exactly when every namespace scan succeeded. */
  lemma ScanEachNoErrorsIff(env: Env, namespaces: seq<string>)
    ensures ScanEach(env, namespaces).errors == [] <==>
      forall ns :: ns in namespaces ==> ScanNamespaceOutcome(env, ns).err.None?
  {
    CollectNoErrorsIff(NamespaceOutcomes(env, namespaces));
  }

  /** One failing namespace among succeeding ones: the others are all scanned,
      and the joined error holds exactly that namespace's error. */
  lemma OneFailingNamespace(env: Env, before: seq<string>, bad: string, after: seq<string>)
    requires forall ns :: ns in before + after ==> ScanNamespaceOutcome(env, ns).err.None?
    requires ScanNamespaceOutcome(env, bad).err.Some?
    ensures var o := ScanEach(env, before + [bad] + after);
      && o.errors == [ScanNamespaceOutcome(env, bad).err.value]
      && o.audits == ScanEach(env, before).audits + ScanNamespaceOutcome(env, bad).audits + ScanEach(env, after).audits
  {
    ScanEachConcat(env, before + [bad], after);
    ScanEachConcat(env, before, [bad]);
    var single := NamespaceOutcomes(env, [bad]);
    assert single[..0] == [];
    assert Collect(single) == AllOutcome(single[0].audits, ErrorsOf(single[0]));
    ScanEachNoErrorsIff(env, before);
    ScanEachNoErrorsIff(env, after);
  }

  /** ScanAllNamespaces: scan every listed namespace, keep going after failures,
      and return the join of all errors. `scanned` lists the namespaces visited. */
  method ScanAllNamespaces(env: Env)
    returns (handed: seq<PolicyReport>, errors: seq<ScanError>, scanned: seq<string>)
    ensures handed == NamespacedReports(ScanAllOutcome(env).audits)
    ensures errors == ScanAllOutcome(env).errors
    ensures scanned == AuditedList(env)
  {
    var namespaces: seq<string>;
    match env.auditedNamespaces {
      case Failure(m) =>
        namespaces, errors := [], [ApiError(m)];
      case Success(list) =>
        namespaces, errors := list, [];
    }
    handed, scanned := [], [];
    ghost var audits: seq<Audit> := [];
    for i := 0 to |namespaces|
      invariant scanned == namespaces[..i]
      invariant env.auditedNamespaces.Success? ==> Collect(NamespaceOutcomes(env, namespaces[..i])) == AllOutcome(audits, errors)
      invariant env.auditedNamespaces.Failure? ==> audits == [] && errors == [ApiError(env.auditedNamespaces.error)]
      invariant handed == NamespacedReports(audits)
    {
      var ns := namespaces[i];
      assert NamespaceOutcomes(env, namespaces[..i + 1]) ==
        NamespaceOutcomes(env, namespaces[..i]) + [ScanNamespaceOutcome(env, ns)];
      var h, e := ScanNamespace(env, ns);
      scanned := scanned + [ns];
      handed := handed + h;
      audits := audits + ScanNamespaceOutcome(env, ns).audits;
      if e.Some? {
        errors := errors + [e.value];
      }
    }
    assert namespaces[..|namespaces|] == namespaces;
  }
}
