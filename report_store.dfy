/** The report types and the PolicyReportStore of internal/report/store.go:
    an in-memory cache of the latest report per namespace plus the single
    cluster report, and `Save`, which writes a namespaced report to the
    cluster's versioned API with retry on conflict. */
module Report {
  import opened Wrappers

  /** The policy server's verdict in an AdmissionReview response. */
  datatype AdmissionResponse = AdmissionResponse(uid: string, allowed: bool, message: string)

  /** One result row: the policy, the verdict when there is one, and whether the
      evaluation call failed. */
  datatype ResultEntry = ResultEntry(policy: string, response: Option<AdmissionResponse>, errored: bool)

  datatype PolicyReport = PolicyReport(namespace: string, name: string, results: seq<ResultEntry>)

  datatype ClusterPolicyReport = ClusterPolicyReport(name: string, results: seq<ResultEntry>)

  /** The zero PolicyReport that GetPolicyReport returns with its error. */
  const EmptyPolicyReport: PolicyReport := PolicyReport("", "", [])

  /** The cluster report the store starts with. */
  const InitialClusterPolicyReport: ClusterPolicyReport := ClusterPolicyReport("clusterwide", [])

  datatype StoreError = ReportNotFound

  // ---------------------------------------------------------------------------
  // The cache as a value

  /** What the store holds: namespace -> report, and the cluster report. */
  datatype Cache = Cache(namespaced: map<string, PolicyReport>, cluster: ClusterPolicyReport)

  /** The (report, error) pair GetPolicyReport returns for `namespace`. */
  function Lookup(c: Cache, namespace: string): (r: (PolicyReport, Option<StoreError>))
    ensures r.1.None? <==> namespace in c.namespaced
    ensures r.1.None? ==> r.0 == c.namespaced[namespace]
    ensures r.1.Some? ==> r == (EmptyPolicyReport, Some(ReportNotFound))
  {
    if namespace in c.namespaced then (c.namespaced[namespace], None)
    else (EmptyPolicyReport, Some(ReportNotFound))
  }

  /** The cache after storing `report` under its own namespace. */
  function Put(c: Cache, report: PolicyReport): (c': Cache)
    ensures Lookup(c', report.namespace) == (report, None)
    ensures forall ns :: ns != report.namespace ==> Lookup(c', ns) == Lookup(c, ns)
    ensures c'.namespaced.Keys == c.namespaced.Keys + {report.namespace}
    ensures c'.cluster == c.cluster
  {
    c.(namespaced := c.namespaced[report.namespace := report])
  }

  /** The cache after replacing the cluster report. */
  function PutCluster(c: Cache, report: ClusterPolicyReport): (c': Cache)
    ensures c'.cluster == report
    ensures forall ns :: Lookup(c', ns) == Lookup(c, ns)
  {
    c.(cluster := report)
  }

  /** The cache after deleting `namespace`'s report, if it has one. */
  function Drop(c: Cache, namespace: string): (c': Cache)
    ensures Lookup(c', namespace).1 == Some(ReportNotFound)
    ensures forall ns :: ns != namespace ==> Lookup(c', ns) == Lookup(c, ns)
    ensures namespace !in c.namespaced ==> c' == c
    ensures c'.cluster == c.cluster
  {
    c.(namespaced := c.namespaced - {namespace})
  }

  /** The cache after clearing every namespaced report. */
  function DropAll(c: Cache): (c': Cache)
    ensures forall ns :: Lookup(c', ns).1 == Some(ReportNotFound)
    ensures c'.cluster == c.cluster
  {
    c.(namespaced := map[])
  }

  // ---------------------------------------------------------------------------
  // The external, versioned report repository

  /** A report's object name in the cluster. */
  datatype Key = Key(namespace: string, name: string)

  function KeyOf(report: PolicyReport): Key
  {
    Key(report.namespace, report.name)
  }

  /** A persisted report and its resource version. */
  datatype Stored = Stored(report: PolicyReport, version: nat)

  datatype ReadResult = Found(stored: Stored) | NotFound | ReadError(message: string)

  datatype WriteResult = Written | Conflict | WriteError(message: string)

  /** The resource version a newly created object receives. */
  const FirstVersion: nat := 1

  /** A read of `key`; `fault` is a failure of the call itself (network, RBAC). */
  function ReadAt(objects: map<Key, Stored>, key: Key, fault: Option<string>): (r: ReadResult)
    ensures r.Found? ==> key in objects && r.stored == objects[key]
    ensures r.NotFound? <==> fault.None? && key !in objects
    ensures r.ReadError? <==> fault.Some?
    ensures fault.None? && key in objects ==> r == Found(objects[key])
  {
    if fault.Some? then ReadError(fault.value)
    else if key in objects then Found(objects[key])
    else NotFound
  }

  /** An optimistic-concurrency update of `report` that names `version`:
      it is a conflict unless `version` is the object's current version. */
  function UpdateAt(objects: map<Key, Stored>, report: PolicyReport, version: nat, fault: Option<string>)
    : (r: (map<Key, Stored>, WriteResult))
    ensures r.1.Written? <==> fault.None? && KeyOf(report) in objects && objects[KeyOf(report)].version == version
    ensures r.1.Conflict? <==> fault.None? && KeyOf(report) in objects && objects[KeyOf(report)].version != version
    ensures r.1.Written? ==> r.0 == objects[KeyOf(report) := Stored(report, version + 1)]
    ensures !r.1.Written? ==> r.0 == objects
  {
    var key := KeyOf(report);
    if fault.Some? then (objects, WriteError(fault.value))
    else if key !in objects then (objects, WriteError("not found"))
    else if objects[key].version != version then (objects, Conflict)
    else (objects[key := Stored(report, version + 1)], Written)
  }

  /** The cluster's report objects, keyed by namespace and name. */
  class Repository {
    var objects: map<Key, Stored>

    constructor (initial: map<Key, Stored>)
      ensures objects == initial
    {
      objects := initial;
    }

    method Get(key: Key, fault: Option<string>) returns (r: ReadResult)
      ensures r == ReadAt(objects, key, fault)
    {
      r := ReadAt(objects, key, fault);
    }

    /** Creates the object; fails if the call fails or the object exists. */
    method Create(report: PolicyReport, fault: Option<string>) returns (err: Option<string>)
      modifies this
      ensures err.None? <==> fault.None? && KeyOf(report) !in old(objects)
      ensures fault.Some? ==> err == fault
      ensures objects == if err.None? then old(objects)[KeyOf(report) := Stored(report, FirstVersion)] else old(objects)
    {
      if fault.Some? {
        return fault;
      }
      if KeyOf(report) in objects {
        return Some("already exists");
      }
      objects := objects[KeyOf(report) := Stored(report, FirstVersion)];
      return None;
    }

    method Update(report: PolicyReport, version: nat, fault: Option<string>) returns (r: WriteResult)
      modifies this
      ensures (objects, r) == UpdateAt(old(objects), report, version, fault)
    {
      var (after, w) := UpdateAt(objects, report, version, fault);
      objects, r := after, w;
    }

    /** Another client replaces the object at `key`, bumping its version. */
    method ConcurrentWrite(key: Key, writer: PolicyReport)
      requires key in objects
      modifies this
      ensures objects == old(objects)[key := Stored(writer, old(objects)[key].version + 1)]
    {
      objects := objects[key := Stored(writer, objects[key].version + 1)];
    }
  }

  // ---------------------------------------------------------------------------
  // Save: create, or update with retry on conflict

  /** retry.DefaultRetry allows five attempts. */
  const MaxAttempts: nat := 5

  /** What the rest of the world does during one update attempt. */
  datatype Attempt =
    | Calm                          // nothing interferes
    | ReadFails(message: string)    // the re-read fails
    | Raced(writer: PolicyReport)   // another client updates the object between our read and our write
    | WriteFails(message: string)   // the update fails with an error other than a conflict

  /** The oracle Save consumes: a failure of the first read (other than
      NotFound), a failure of the create call, and one entry per attempt
      (attempts past the end are Calm). */
  datatype SaveEnv = SaveEnv(firstRead: Option<string>, createFails: Option<string>, attempts: seq<Attempt>)

  function AttemptAt(env: SaveEnv, i: nat): Attempt
  {
    if i < |env.attempts| then env.attempts[i] else Calm
  }

  function ReadFault(a: Attempt): Option<string>
  {
    if a.ReadFails? then Some(a.message) else None
  }

  function WriteFault(a: Attempt): Option<string>
  {
    if a.WriteFails? then Some(a.message) else None
  }

  /** Why the update loop gave up; it is only logged. */
  datatype RetryError = RetriesExhausted | ReadFailed(message: string) | WriteFailed(message: string)

  datatype SaveError = CreateFailed(message: string)

  /** One attempt: re-read, then update with the version just read. */
  datatype Step = Step(objects: map<Key, Stored>, conflict: bool, err: Option<RetryError>)

  function AttemptStep(objects: map<Key, Stored>, report: PolicyReport, a: Attempt): (s: Step)
    ensures s.conflict ==> s.err.None?
    ensures s.conflict <==> a.Raced? && ReadAt(objects, KeyOf(report), None).Found? && WriteFault(a).None?
    ensures ReadAt(objects, KeyOf(report), ReadFault(a)).NotFound? ==> s == Step(objects, false, None)
  {
    var key := KeyOf(report);
    match ReadAt(objects, key, ReadFault(a))
    case NotFound => Step(objects, false, None)
    case ReadError(m) => Step(objects, false, Some(ReadFailed(m)))
    case Found(current) =>
      var seen := if a.Raced? then objects[key := Stored(a.writer, current.version + 1)] else objects;
      var (after, w) := UpdateAt(seen, report, current.version, WriteFault(a));
      match w
      case Written => Step(after, false, None)
      case Conflict => Step(after, true, None)
      case WriteError(m) => Step(after, false, Some(WriteFailed(m)))
  }

  datatype RetryOutcome = RetryOutcome(objects: map<Key, Stored>, err: Option<RetryError>)

  /** The update loop from attempt `i` on. */
  function RetryFrom(objects: map<Key, Stored>, report: PolicyReport, env: SaveEnv, i: nat): (r: RetryOutcome)
    requires i < MaxAttempts
    ensures r.err == Some(RetriesExhausted) ==> forall j :: i <= j < MaxAttempts ==> AttemptAt(env, j).Raced?
    decreases MaxAttempts - i
  {
    var s := AttemptStep(objects, report, AttemptAt(env, i));
    if !s.conflict then RetryOutcome(s.objects, s.err)
    else if i + 1 < MaxAttempts then RetryFrom(s.objects, report, env, i + 1)
    else RetryOutcome(s.objects, Some(RetriesExhausted))
  }

  /** The repository after Save, Save's error, and what it logs. */
  datatype SaveOutcome = SaveOutcome(objects: map<Key, Stored>, err: Option<SaveError>, logged: Option<RetryError>)

  function SaveResult(objects: map<Key, Stored>, report: PolicyReport, env: SaveEnv): (o: SaveOutcome)
    ensures o.err.Some? <==> KeyOf(report) !in objects && env.firstRead.None? && env.createFails.Some?
    ensures o.err.Some? ==> o.objects == objects
  {
    var key := KeyOf(report);
    if ReadAt(objects, key, env.firstRead).NotFound? then
      if env.createFails.Some? then SaveOutcome(objects, Some(CreateFailed(env.createFails.value)), None)
      else SaveOutcome(objects[key := Stored(report, FirstVersion)], None, None)
    else
      var r := RetryFrom(objects, report, env, 0);
      SaveOutcome(r.objects, None, r.err)
  }

  // ---------------------------------------------------------------------------
  // Properties of Save

  /** Each attempt writes only the report's own object and never lowers its version. */
  lemma AttemptStepFrame(objects: map<Key, Stored>, report: PolicyReport, a: Attempt)
    ensures var s := AttemptStep(objects, report, a);
      && s.objects.Keys == objects.Keys
      && (forall k :: k in objects && k != KeyOf(report) ==> s.objects[k] == objects[k])
      && (KeyOf(report) in objects ==> s.objects[KeyOf(report)].version >= objects[KeyOf(report)].version)
  {
  }

  lemma {:induction false} RetryFrame(objects: map<Key, Stored>, report: PolicyReport, env: SaveEnv, i: nat)
    requires i < MaxAttempts
    ensures var r := RetryFrom(objects, report, env, i);
      && r.objects.Keys == objects.Keys
      && (forall k :: k in objects && k != KeyOf(report) ==> r.objects[k] == objects[k])
      && (KeyOf(report) in objects ==> r.objects[KeyOf(report)].version >= objects[KeyOf(report)].version)
    decreases MaxAttempts - i
  {
    var s := AttemptStep(objects, report, AttemptAt(env, i));
    AttemptStepFrame(objects, report, AttemptAt(env, i));
    if s.conflict && i + 1 < MaxAttempts {
      RetryFrame(s.objects, report, env, i + 1);
    }
  }

  /** Save touches no other object, adds no object but its own, and never
      lowers a version. */
  lemma SaveFrame(objects: map<Key, Stored>, report: PolicyReport, env: SaveEnv)
    ensures var o := SaveResult(objects, report, env);
      && objects.Keys <= o.objects.Keys <= objects.Keys + {KeyOf(report)}
      && (forall k :: k in objects && k != KeyOf(report) ==> o.objects[k] == objects[k])
      && (KeyOf(report) in objects ==> o.objects[KeyOf(report)].version >= objects[KeyOf(report)].version)
  {
    var key := KeyOf(report);
    if ReadAt(objects, key, env.firstRead).NotFound? {
      if env.createFails.None? {
        var created := objects[key := Stored(report, FirstVersion)];
        assert SaveResult(objects, report, env).objects == created;
        assert created.Keys == objects.Keys + {key};
      } else {
        assert SaveResult(objects, report, env).objects == objects;
      }
    } else {
      var r := RetryFrom(objects, report, env, 0);
      RetryFrame(objects, report, env, 0);
      assert SaveResult(objects, report, env).objects == r.objects;
    }
  }

  /** A report that is not yet persisted is created when nothing fails. */
  lemma SaveCreates(objects: map<Key, Stored>, report: PolicyReport, env: SaveEnv)
    requires KeyOf(report) !in objects && env.firstRead.None? && env.createFails.None?
    ensures SaveResult(objects, report, env) == SaveOutcome(objects[KeyOf(report) := Stored(report, FirstVersion)], None, None)
  {
  }

  /** The loop retries only on a conflict: an attempt that did not race ends it
      there, so later attempts cannot change the outcome, and it never ends in
      exhaustion. */
  lemma RetryStopsOnNonConflict(objects: map<Key, Stored>, report: PolicyReport, env: SaveEnv, env': SaveEnv, i: nat)
    requires i < MaxAttempts
    requires AttemptAt(env, i) == AttemptAt(env', i)
    requires !AttemptAt(env, i).Raced?
    ensures RetryFrom(objects, report, env, i) == RetryFrom(objects, report, env', i)
    ensures RetryFrom(objects, report, env, i).err != Some(RetriesExhausted)
  {
  }

  /** A failed update of an existing report ends the loop at once; Save logs
      the failure, returns nil and changes nothing. */
  lemma WriteFailureIsLogged(objects: map<Key, Stored>, report: PolicyReport, env: SaveEnv, m: string)
    requires KeyOf(report) in objects
    requires AttemptAt(env, 0) == WriteFails(m)
    ensures SaveResult(objects, report, env) == SaveOutcome(objects, None, Some(WriteFailed(m)))
  {
  }

  /** A failed re-read ends the loop at once in the same way. */
  lemma ReadFailureIsLogged(objects: map<Key, Stored>, report: PolicyReport, env: SaveEnv, m: string)
    requires KeyOf(report) in objects && env.firstRead.None?
    requires AttemptAt(env, 0) == ReadFails(m)
    ensures SaveResult(objects, report, env) == SaveOutcome(objects, None, Some(ReadFailed(m)))
  {
  }

  /** When other clients win the race on the first k attempts (k < MaxAttempts)
      and attempt k is undisturbed, the loop ends with our report persisted. */
  lemma {:induction false} RetryConverges(objects: map<Key, Stored>, report: PolicyReport, env: SaveEnv, i: nat, k: nat)
    requires KeyOf(report) in objects
    requires i <= k < MaxAttempts
    requires forall j :: i <= j < k ==> AttemptAt(env, j).Raced?
    requires AttemptAt(env, k) == Calm
    ensures var r := RetryFrom(objects, report, env, i);
      && r.err.None?
      && KeyOf(report) in r.objects
      && r.objects[KeyOf(report)].report == report
    decreases k - i
  {
    var key := KeyOf(report);
    var s := AttemptStep(objects, report, AttemptAt(env, i));
    if i < k {
      assert AttemptAt(env, i).Raced?;
      assert s.conflict && key in s.objects;
      RetryConverges(s.objects, report, env, i + 1, k);
    }
  }

  /** Save of an existing report survives up to MaxAttempts - 1 lost races:
      it returns no error, logs nothing, and the report is persisted. */
  lemma SaveRetriesOnConflict(objects: map<Key, Stored>, report: PolicyReport, env: SaveEnv, k: nat)
    requires KeyOf(report) in objects
    requires k < MaxAttempts
    requires forall j :: 0 <= j < k ==> AttemptAt(env, j).Raced?
    requires AttemptAt(env, k) == Calm
    ensures var o := SaveResult(objects, report, env);
      o.err.None? && o.logged.None? && o.objects[KeyOf(report)].report == report
  {
    RetryConverges(objects, report, env, 0, k);
  }

  /** When every attempt loses the race, the loop gives up with a logged
      conflict, the last other writer's report stays, and Save returns no error. */
  lemma {:induction false} RetryExhausts(objects: map<Key, Stored>, report: PolicyReport, env: SaveEnv, i: nat)
    requires KeyOf(report) in objects
    requires i < MaxAttempts
    requires forall j :: i <= j < MaxAttempts ==> AttemptAt(env, j).Raced?
    ensures var r := RetryFrom(objects, report, env, i);
      && r.err == Some(RetriesExhausted)
      && KeyOf(report) in r.objects
      && r.objects[KeyOf(report)].report == AttemptAt(env, MaxAttempts - 1).writer
    decreases MaxAttempts - i
  {
    var s := AttemptStep(objects, report, AttemptAt(env, i));
    assert AttemptAt(env, i).Raced?;
    assert s.conflict && KeyOf(report) in s.objects;
    if i + 1 < MaxAttempts {
      RetryExhausts(s.objects, report, env, i + 1);
    }
  }

  lemma SaveExhaustionIsNotAnError(objects: map<Key, Stored>, report: PolicyReport, env: SaveEnv)
    requires KeyOf(report) in objects
    requires forall j :: 0 <= j < MaxAttempts ==> AttemptAt(env, j).Raced?
    ensures var o := SaveResult(objects, report, env);
      o.err.None? && o.logged == Some(RetriesExhausted)
  {
    RetryExhausts(objects, report, env, 0);
  }

  /** An undisturbed Save leaves exactly `report` persisted under its key. */
  lemma SaveUndisturbed(objects: map<Key, Stored>, report: PolicyReport)
    ensures var o := SaveResult(objects, report, SaveEnv(None, None, []));
      && o.err.None? && o.logged.None?
      && KeyOf(report) in o.objects && o.objects[KeyOf(report)].report == report
  {
    if KeyOf(report) in objects {
      RetryConverges(objects, report, SaveEnv(None, None, []), 0, 0);
    }
  }

  /** Saving twice replaces rather than accumulates: after two undisturbed
      saves of reports with the same key, the second report is what is stored. */
  lemma SaveTwiceKeepsSecond(objects: map<Key, Stored>, first: PolicyReport, second: PolicyReport)
    requires KeyOf(first) == KeyOf(second)
    ensures var calm := SaveEnv(None, None, []);
      var o := SaveResult(SaveResult(objects, first, calm).objects, second, calm);
      o.err.None? && o.objects[KeyOf(second)].report == second
  {
    var calm := SaveEnv(None, None, []);
    SaveUndisturbed(objects, first);
    SaveUndisturbed(SaveResult(objects, first, calm).objects, second);
  }

  /** If the first read fails for a report that does not exist yet, the update
      path finds nothing on re-read and returns without creating it. */
  lemma SaveSkipsCreateAfterFailedRead(objects: map<Key, Stored>, report: PolicyReport, env: SaveEnv)
    requires KeyOf(report) !in objects && env.firstRead.Some?
    requires AttemptAt(env, 0) == Calm
    ensures SaveResult(objects, report, env) == SaveOutcome(objects, None, None)
  {
  }

  // ---------------------------------------------------------------------------
  // The store

  class PolicyReportStore {
    var namespacedPolicyReports: map<string, PolicyReport>
    var clusterPolicyReport: ClusterPolicyReport

    function Contents(): Cache
      reads this
    {
      Cache(namespacedPolicyReports, clusterPolicyReport)
    }

    constructor ()
      ensures Contents() == Cache(map[], InitialClusterPolicyReport)
    {
      namespacedPolicyReports := map[];
      clusterPolicyReport := InitialClusterPolicyReport;
    }

    method AddPolicyReport(report: PolicyReport) returns (err: Option<StoreError>)
      modifies this
      ensures Contents() == Put(old(Contents()), report)
      ensures err.None?
    {
      namespacedPolicyReports := namespacedPolicyReports[report.namespace := report];
      return None;
    }

    method AddClusterPolicyReport(report: ClusterPolicyReport) returns (err: Option<StoreError>)
      modifies this
      ensures Contents() == PutCluster(old(Contents()), report)
      ensures err.None?
    {
      clusterPolicyReport := report;
      return None;
    }

    method GetPolicyReport(namespace: string) returns (report: PolicyReport, err: Option<StoreError>)
      ensures (report, err) == Lookup(Contents(), namespace)
    {
      if namespace in namespacedPolicyReports {
        return namespacedPolicyReports[namespace], None;
      }
      return EmptyPolicyReport, Some(ReportNotFound);
    }

    method GetClusterPolicyReport() returns (report: ClusterPolicyReport, err: Option<StoreError>)
      ensures report == Contents().cluster
      ensures err.None?
    {
      return clusterPolicyReport, None;
    }

    method UpdatePolicyReport(report: PolicyReport) returns (err: Option<StoreError>)
      modifies this
      ensures Contents() == Put(old(Contents()), report)
      ensures err.None?
    {
      namespacedPolicyReports := namespacedPolicyReports[report.namespace := report];
      return None;
    }

    method UpdateClusterPolicyReport(report: ClusterPolicyReport) returns (err: Option<StoreError>)
      modifies this
      ensures Contents() == PutCluster(old(Contents()), report)
      ensures err.None?
    {
      clusterPolicyReport := report;
      return None;
    }

    method RemovePolicyReport(namespace: string) returns (err: Option<StoreError>)
      modifies this
      ensures Contents() == Drop(old(Contents()), namespace)
      ensures err.None?
    {
      var _, getErr := GetPolicyReport(namespace);
      if getErr.None? {
        namespacedPolicyReports := namespacedPolicyReports - {namespace};
      }
      return None;
    }

    method RemoveAllNamespacedPolicyReports() returns (err: Option<StoreError>)
      modifies this
      ensures Contents() == DropAll(old(Contents()))
      ensures err.None?
    {
      namespacedPolicyReports := map[];
      return None;
    }

    /** Creates `report` in the repository if it is not found there, otherwise
        updates it, re-reading its version before each attempt and retrying
        only on conflict. Only a failed create is returned; a failed update
        loop is reported in `logged`. */
    method Save(report: PolicyReport, repo: Repository, env: SaveEnv)
      returns (err: Option<SaveError>, logged: Option<RetryError>)
      modifies repo
      ensures SaveOutcome(repo.objects, err, logged) == SaveResult(old(repo.objects), report, env)
    {
      var key := KeyOf(report);
      var first := repo.Get(key, env.firstRead);
      if first.NotFound? {
        var createErr := repo.Create(report, env.createFails);
        if createErr.Some? {
          return Some(CreateFailed(createErr.value)), None;
        }
        return None, None;
      }
      ghost var start := repo.objects;
      var i: nat := 0;
      while true
        invariant i < MaxAttempts
        invariant RetryFrom(start, report, env, 0) == RetryFrom(repo.objects, report, env, i)
        decreases MaxAttempts - i
      {
        var a := AttemptAt(env, i);
        ghost var before := repo.objects;
        var read := repo.Get(key, ReadFault(a));
        if read.NotFound? {
          return None, None;
        }
        if read.ReadError? {
          return None, Some(ReadFailed(read.message));
        }
        if a.Raced? {
          repo.ConcurrentWrite(key, a.writer);
        }
        var written := repo.Update(report, read.stored.version, WriteFault(a));
        assert repo.objects == AttemptStep(before, report, a).objects;
        if written.Written? {
          return None, None;
        }
        if written.WriteError? {
          return None, Some(WriteFailed(written.message));
        }
        if i + 1 == MaxAttempts {
          return None, Some(RetriesExhausted);
        }
        i := i + 1;
      }
    }
  }
}
