# Kubewarden audit scanner — a Dafny model of its core

The audit scanner walks the resources of a Kubernetes cluster. For each
resource it finds the Kubewarden policies bound to that resource's type and
keeps the ones whose object selector matches the resource's labels. It sends
each of those policies an AdmissionReview on the policy server that hosts it,
and collects the verdicts into one PolicyReport per namespaced resource, or one
ClusterPolicyReport per cluster-scoped resource. This project models four
parts of it:

- `scanner.dfy` (module `Scanner`), from `internal/scanner/scanner.go`:
  - `policyMatches`;
  - how the answer of `sendAdmissionReviewToPolicyServer` is classified;
  - the per-resource policy loop of `auditResource` and `auditClusterResource`;
  - the scans `ScanNamespace`, `ScanClusterWideResources` and `ScanAllNamespaces`.

  The Kubernetes API, the label-selector library and the HTTP round trip are
  oracles held in the record `Env`. Each scan is a `method` with the source's
  loops, proved against a recursive specification function (`ScanGroups`,
  `AuditItems`, `ScanEach`). The properties are lemmas about those functions.
- `report_store.dfy` (module `Report`), from `internal/report/store.go`:
  - the report datatypes;
  - the in-memory `PolicyReportStore`, a class whose two fields the methods
    update;
  - `Save`.

  `Save` creates the report in the cluster's versioned API, or updates it with
  retry on conflict. The API is a `Repository` class holding versioned objects
  and doing optimistic-concurrency updates. What other clients and failing
  calls do during each attempt is the oracle `SaveEnv`. `Save` is proved equal
  to the specification function `SaveResult`, and the retry behaviour is
  proved about that function.
- `log_level.dfy` (module `LogLevel`), from `internal/log/level.go`: the
  `--loglevel` flag value, with `Set`, `String` and `GetSupportedValues`.
- `slogger.dfy` (module `Slogger`), from `internal/log/slogger.go`: the
  name-to-level switch of `NewSlogger` and the `ReplaceAttr` hook. The hook
  writes a level back as a name and renames the message key.

`wrappers.dfy` holds the `Option` and `Result` datatypes.

Some facts the proofs make explicit:
- A failure while looking up a namespace, fetching its policies, listing a
  resource type or paging ends that namespace's scan with that error. The
  reports already handed over stay handed over.
- `ScanAllNamespaces` scans every namespace whatever failed before it, and
  joins all the errors.
- Within one resource, a policy produces exactly one row if its selector
  matches and no row otherwise.
- `Save` returns an error only when the create call fails. When the update
  loop gives up, it only logs.

The level flag and the slog handler disagree on one name. The flag takes
zerolog's `"warn"` and rejects `"warning"`. `NewSlogger` takes `"warning"` and
panics on `"warn"` (`Slogger.FlagAndHandlerNames`). `NewSlogger` is not called
from `cmd/root.go`, so this is recorded as a property and not as a finding.

## Model

| member | source | states |
|---|---|---|
| Scanner.PolicyMatches | internal/scanner/scanner.go:314-332 | a policy with no selector matches every resource; an error is returned exactly when the selector fails to compile, and then there is no match; otherwise the result is the selector's verdict on the resource's labels |
| Scanner.SendAdmissionReview | internal/scanner/scanner.go:334-362 | a review is returned exactly when the status is 200 and the body decodes, and it is the decoded review; any other status is an error carrying that status and body |
| Scanner.Entry | internal/scanner/scanner.go:284-305 | a row names its policy; it is errored exactly when the call failed; an errored row carries no response; a successful row carries the review's response |
| Scanner.Matching | internal/scanner/scanner.go:268-279 | a policy is kept exactly when it is in the list and matches the resource; the kept list is never longer than the input |
| Scanner.AuditResultsFollowMatching | internal/scanner/scanner.go:268-306 | the policy loop yields one row per matching policy, in order: row k is the entry of the k-th matching policy's evaluation |
| Scanner.ErroredIffCallFailed | internal/scanner/scanner.go:282-305 | every row corresponds to a matching policy, names it, and is errored exactly when that policy's call failed, in which case it has no response |
| Scanner.NoSelectorMatchesAll | internal/scanner/scanner.go:314-317 | when no policy has a selector, every policy is evaluated, in order |
| Scanner.AuditPolicies | internal/scanner/scanner.go:268-306 | the loop's rows are the specified rows, and the policy servers are called for exactly the matching policies, in order |
| Scanner.AuditResource | internal/scanner/scanner.go:265-312 | the report handed over carries the resource's namespace and name and the policy loop's rows, and one call is made per matching policy |
| Scanner.AuditClusterResource | internal/scanner/scanner.go:218-263 | the same for a cluster-scoped resource, without a namespace |
| Scanner.FailedCallPanicsAsWritten | internal/scanner/scanner.go:282-305 | as written, any matching policy whose call fails makes the loop panic, because the nil review's response is read |
| Scanner.MissingResponsePanicsAsWritten | internal/scanner/scanner.go:295-300 | as written, a status-200 review without a response makes the debug log panic |
| Scanner.AuditResults | internal/scanner/scanner.go:268-306 | the policy loop adds at most one row per policy |
| Scanner.AuditResultsAsWritten | internal/scanner/scanner.go:268-306 | the loop as written; whenever it does not panic, its rows are exactly the corrected loop's rows |
| Scanner.AsWrittenAgreesWithoutFailures | internal/scanner/scanner.go:268-306 | when every call succeeds with a response, the loop as written and the corrected loop give the same rows |
| Scanner.TimeoutExample | internal/scanner/scanner.go:343-345 | a concrete input: one selector-less policy whose server times out crashes the loop as written, and gives one errored row in the corrected loop |
| Scanner.AuditItemsStopAtFailure | internal/scanner/scanner.go:136-147 | once an item is not unstructured, no later item of the listing is audited |
| Scanner.ScanGroupsStopAtFailure | internal/scanner/scanner.go:130-148 | once a resource type fails to list or page, no later type is listed |
| Scanner.AuditItemsOnePerResource | internal/scanner/scanner.go:136-144 | a listing of unstructured items is audited once per item, in order, with no error; each audit holds that resource's policy-loop rows |
| Scanner.AuditListedResources | internal/scanner/scanner.go:136-144 | the paging callback hands over one report per audited resource and stops with an error at the first object that is not unstructured |
| Scanner.AuditListedClusterResources | internal/scanner/scanner.go:198-207 | the same for cluster-scoped resources |
| Scanner.ScanNamespace | internal/scanner/scanner.go:103-151 | the reports handed over and the returned error are those of the specified namespace scan: a lookup, policy, listing or paging failure ends it |
| Scanner.ScanClusterWideResources | internal/scanner/scanner.go:178-216 | the reports handed over and the returned error are those of the specified cluster-wide scan |
| Scanner.CollectConcat | internal/scanner/scanner.go:164-169 | folding outcomes over a + b concatenates the audits and errors of a and of b |
| Scanner.CollectNoErrorsIff | internal/scanner/scanner.go:164-171 | the joined error is empty exactly when no namespace outcome has an error |
| Scanner.ScanEachConcat | internal/scanner/scanner.go:164-169 | a namespace's scan does not depend on the namespaces before it |
| Scanner.ScanEachNoErrorsIff | internal/scanner/scanner.go:164-171 | ScanAllNamespaces returns nil exactly when every namespace scan succeeded |
| Scanner.OneFailingNamespace | internal/scanner/scanner.go:164-171 | one failing namespace does not stop the others: they are all audited, and the joined error is that namespace's error alone |
| Scanner.ScanAllNamespaces | internal/scanner/scanner.go:157-172 | the reports handed over and the joined errors are those of scanning every listed namespace in order; a failed namespace listing is itself an error; the namespaces visited are exactly the listed ones |
| Report.Lookup | internal/report/store.go:92-100 | a report is found exactly when its namespace is cached, and it is the cached one; otherwise the zero report comes with a not-found error |
| Report.Put | internal/report/store.go:76-81 | after storing, the report's namespace yields that report, every other namespace yields what it did before, and the cluster report is unchanged |
| Report.PutCluster | internal/report/store.go:84-89 | the cluster report is replaced and every namespaced lookup is unchanged |
| Report.Drop | internal/report/store.go:128-135 | the namespace is no longer found, the others are unchanged, and deleting an absent namespace changes nothing |
| Report.DropAll | internal/report/store.go:138-144 | no namespace is found any more and the cluster report is unchanged |
| Report.PolicyReportStore.constructor | internal/report/store.go:65-73 | a new store holds no namespaced report, and the cluster report named "clusterwide" |
| Report.PolicyReportStore.AddPolicyReport | internal/report/store.go:75-81 | the store becomes Put of its old contents, and no error is returned |
| Report.PolicyReportStore.AddClusterPolicyReport | internal/report/store.go:83-89 | the store becomes PutCluster of its old contents, and no error is returned |
| Report.PolicyReportStore.GetPolicyReport | internal/report/store.go:91-100 | returns Lookup of the contents |
| Report.PolicyReportStore.GetClusterPolicyReport | internal/report/store.go:102-108 | returns the cluster report with no error |
| Report.PolicyReportStore.UpdatePolicyReport | internal/report/store.go:110-116 | the same new state as AddPolicyReport |
| Report.PolicyReportStore.UpdateClusterPolicyReport | internal/report/store.go:118-125 | the same new state as AddClusterPolicyReport |
| Report.PolicyReportStore.RemovePolicyReport | internal/report/store.go:127-135 | the store becomes Drop of its old contents, and no error is returned |
| Report.PolicyReportStore.RemoveAllNamespacedPolicyReports | internal/report/store.go:137-144 | the store becomes DropAll of its old contents, and no error is returned |
| Report.ReadAt | internal/report/store.go:164-169 | a read fails exactly when the call itself fails; otherwise it finds the stored object when the object is present, and is NotFound exactly when it is absent |
| Report.Repository.Get | internal/report/store.go:164-167 | the repository's read returns ReadAt of its current objects |
| Report.UpdateAt | internal/report/store.go:192-195 | an update is written exactly when it names the current version, which it then increments; it is a conflict exactly when the object exists at another version; nothing changes unless it is written |
| Report.Repository.Update | internal/report/store.go:192-195 | the objects after the update, and its result, are exactly what UpdateAt gives for the objects before it |
| Report.Repository.Create | internal/report/store.go:169-174 | a create succeeds exactly when the call does not fail and the object is absent; it then stores the report at the first version |
| Report.PolicyReportStore.Save | internal/report/store.go:161-209 | the repository afterwards, the returned error and the logged error are exactly those of SaveResult on the repository before |
| Report.SaveResult | internal/report/store.go:161-209 | Save returns an error exactly when the report is absent, the first read succeeded and the create fails; a failing Save changes nothing |
| Report.AttemptStep | internal/report/store.go:179-195 | one attempt of the retried closure conflicts exactly when another client wrote between our read and our update, the read succeeded and the update call did not fail; a conflict carries no error; a re-read that finds nothing returns nil and changes nothing |
| Report.RetryFrom | internal/report/store.go:178-196 | the RetryOnConflict loop gives up with a conflict only when every remaining attempt lost the race |
| Report.AttemptStepFrame | internal/report/store.go:178-196 | one attempt writes only the report's own object and never lowers its version |
| Report.RetryFrame | internal/report/store.go:178-196 | the whole update loop writes only the report's own object and never lowers its version |
| Report.SaveFrame | internal/report/store.go:161-209 | Save keeps every other object and adds no object but its own |
| Report.SaveCreates | internal/report/store.go:169-174 | an absent report is created at the first version when nothing fails |
| Report.RetryStopsOnNonConflict | internal/report/store.go:178-196 | the loop retries only on a conflict: an attempt that did not lose a race ends the loop there, whatever later attempts would do, and never as exhausted retries |
| Report.WriteFailureIsLogged | internal/report/store.go:189-202 | a failed update of an existing report ends the loop at the first attempt; Save logs the failure, returns nil and changes nothing |
| Report.ReadFailureIsLogged | internal/report/store.go:189-202 | a failed re-read ends the loop at the first attempt in the same way |
| Report.RetryConverges | internal/report/store.go:178-196 | after lost races on the attempts before k < 5 and a calm attempt k, the loop ends without error with the report stored |
| Report.SaveRetriesOnConflict | internal/report/store.go:175-208 | Save survives up to four lost races: no error, nothing logged, the report stored |
| Report.RetryExhausts | internal/report/store.go:178-202 | when all five attempts lose the race, the loop stops with a conflict, and the last other writer's report stays |
| Report.SaveExhaustionIsNotAnError | internal/report/store.go:197-208 | exhausted retries are only logged; Save returns nil |
| Report.SaveUndisturbed | internal/report/store.go:161-209 | an undisturbed Save leaves exactly the report stored under its key |
| Report.SaveTwiceKeepsSecond | internal/report/store.go:161-209 | two undisturbed Saves under one key leave the second report stored |
| Report.SaveSkipsCreateAfterFailedRead | internal/report/store.go:164-188 | when the first read fails for an absent report, the re-read finds nothing and Save returns nil without creating it |
| LogLevel.SupportedValues | internal/log/level.go:15-17 | six distinct names, including "info" and excluding the empty string |
| LogLevel.Level.constructor | internal/log/level.go:11-13 | a new flag holds no value, which reads as "info", and is valid |
| LogLevel.AssignedIdempotent | internal/log/level.go:35-50 | setting the same name twice leaves the flag as setting it once |
| LogLevel.Level.String | internal/log/level.go:28-33 | "info" while unset, the stored name otherwise, and always a supported name when the flag is valid |
| LogLevel.Level.Set | internal/log/level.go:35-50 | succeeds exactly for a supported name and then stores it; otherwise returns the supported-values error and keeps the old value; validity is preserved |
| Slogger.LevelsStrictlyIncreasing | internal/log/slogger.go:10-17 | trace < debug < info < warn < error < fatal, as numbers |
| Slogger.Rank | internal/log/slogger.go:21-28 | the position of a level name in that order, past the end exactly for an unknown name |
| Slogger.ParseLevel | internal/log/slogger.go:31-48 | a level exactly for the six names, the level at that name's position, and the name comes back from it; any other name panics |
| Slogger.LevelName | internal/log/slogger.go:58-71 | always one of the six names, namely the highest level not above the given level (trace below that) |
| Slogger.BracketsUnique | internal/log/slogger.go:58-71 | only one name fits a given level |
| Slogger.LevelNameMonotone | internal/log/slogger.go:58-71 | a higher level never gets a lower name |
| Slogger.LevelNameIsFloor | internal/log/slogger.go:58-71 | the name's level is the greatest of the six that does not exceed the given level |
| Slogger.LevelNameRoundTrip | internal/log/slogger.go:33-71 | each of the six levels comes back unchanged from its name |
| Slogger.LevelNameExamples | internal/log/slogger.go:58-71 | -5 is "trace", 5 is "warning", and anything at or above 9 is "fatal" |
| Slogger.ReplaceAttr | internal/log/slogger.go:53-78 | only "msg" is renamed, to "message"; only the level key's value changes, and it becomes the name of the attribute's level (LevelName, the highest named level not above it), one of the six names; any other attribute is unchanged |
| Slogger.ReplaceAttrLevelRoundTrip | internal/log/slogger.go:54-72 | a record's level is written as its name, which parses back to the level |
| Slogger.ReplaceAttrNonLevelValue | internal/log/slogger.go:54-56 | a level-key attribute that does not hold a Level is written as "info" |
| Slogger.FlagAndHandlerNames | internal/log/slogger.go:21-48 | five flag names parse, but the flag's "warn" is rejected by the handler, while the handler's "warning" is not a flag value |

## Left out

- `NewScanner`, TLS configuration and HTTP client setup: configuration, not behaviour.
- Building the AdmissionReview, JSON encoding, the HTTP POST and reading the body are abstracted into the outcome of one exchange (`Exchange`). Only the classification of that outcome is modelled.
- `LabelSelectorAsSelector` and `Selector.Matches` are oracles in `Env`. Label-selector semantics belong to the Kubernetes library.
- The Kubernetes client calls are oracles in `Env`: `GetNamespace`, `GetPoliciesForANamespace`, `GetClusterWidePolicies`, `GetResources`, the pager's `EachListItem` and `GetAuditedNamespaces`. A paging error is modelled as arriving after the listed items.
- The order of resource types comes from the oracle as a sequence. The source ranges over a Go map, whose order is random.
- A failed `GetAuditedNamespaces` is modelled as an empty namespace list plus that error. The source would read `nsList.Items` from whatever the client returned.
- `errors.Join` is modelled as the sequence of joined errors. Nil is the empty sequence.
- Log output of the scanner and of `Save` is left out, including the policy-count logging. `Save`'s update-failure log (`store.go:197-202`) is modelled as its `logged` result. The debug-log argument that reads `Response.UID` (`scanner.go:296-302`, also `:247-253`) can panic, and that panic is modelled by `Scanner.AuditResultsAsWritten`.
- `CreateOrPatchPolicyReport`, `CreateOrPatchClusterPolicyReport`, `NewPolicyReport`, `NewClusterPolicyReport`, `AddResultToPolicyReport` and `AddResultToClusterPolicyReport` are not part of this model. `scanner.go` calls them, but `store.go` does not define them. The handoff is modelled as the sequence of reports handed over, each named after its resource and holding the policy loop's rows.
- `Scanner.AuditResource`: the rows are recorded as (policy name, response, errored). Policy-report fields beyond these are not modelled.
- Mutexes of the store: concurrency is not modelled. Each store method is one atomic step.
- `ToJSON` of the store: JSON serialisation is out of scope.
- `NewPolicyReportStore` (`store.go:38-60`) builds a controller-runtime client and is not modelled. The in-memory constructor follows `MockNewPolicyReportStore`.
- `Report.PolicyReportStore.Save`: the resource version copied into the caller's report before each update is not modelled. The repository checks versions itself.
- `Report.PolicyReportStore.Save`: the oracle `Attempt` has no step in which another client deletes the report between attempts. So the re-read at `store.go:184-188` finds nothing only for a report that was absent and whose first read failed, and the update loop never removes an object (`Report.RetryFrame` keeps the key set).
- `Report.PolicyReportStore.Save`: a concurrent writer (`Raced(writer)`) is stored under our report's key, whatever namespace and name its own report carries. Only the version bump and the replaced content matter to the retry.
- `Report.PolicyReportStore.Save`: the retry backoff delays are not modelled. Only the number of attempts (`retry.DefaultRetry`, five) is.
- `Level.SetZeroLogLevel` sets zerolog's global level, which is I/O-like global state outside the model.
- `Level.Type` returns a constant string.
- `NewSlogger`: building the JSON handler and writing records are not modelled. A panic on an unknown name is modelled as `None`.

## Findings

| source | as written | input that shows it | evidently intended | confidence | as-written member | corrected member |
|---|---|---|---|---|---|---|
| internal/scanner/scanner.go:305 (also :256) | after a failed call, `auditResponse` is nil and `auditResponse.Response` is still read, so the scanner panics | one policy without a selector whose policy server times out (`TimeoutExample`) | record a row for the policy with `errored` set and no response | high, not executed | Scanner.FailedCallPanicsAsWritten | Scanner.ErroredIffCallFailed |
| internal/scanner/scanner.go:297 (also :248) | the debug log reads `auditResponse.Response.UID` even when a status-200 body decodes into a review without a response | a policy server answering 200 with the body `{}` | record the row with no response | medium, not executed | Scanner.MissingResponsePanicsAsWritten | Scanner.AuditResultsFollowMatching |
