/** app/backend/backend.py: the Backend class behind the dashboard.
    `get_current_list` walks every namespace and every deployment in it,
    keeps the deployments annotated `kuyala.enabled`, builds one record per
    such deployment with defaults filled in, and wraps the outcome in a
    success or error envelope.  `action` scales one deployment.
    The Kubernetes client is not modelled: what it returns (or raises) is an
    input, `Cluster` for the listing and `PatchOutcome` for the scale patch. */
module Backend {
  import opened Wrappers
  import PyInt

  // ---------------------------------------------------------------------
  // Kubernetes objects, reduced to the fields the backend reads

  datatype KubeCondition = KubeCondition(conditionType: string, status: string)

  datatype DeploymentStatus = DeploymentStatus(replicas: Option<int>, conditions: Option<seq<KubeCondition>>)

  /** A listed deployment: metadata.name, metadata.annotations,
      metadata.creation_timestamp (already in ISO form) and status. */
  datatype KubeDeployment = KubeDeployment(
    name: string,
    annotations: Option<map<string, string>>,
    creationTimestamp: Option<string>,
    status: Option<DeploymentStatus>)

  /** What can be raised inside the `try` of get_current_list and action. */
  datatype Exception = ApiException(reason: string) | OtherException(text: string)

  /** One namespace and the result of listing its deployments. */
  datatype NamespaceListing = NamespaceListing(name: string, deployments: Result<seq<KubeDeployment>, Exception>)

  /** Loading the kube config and listing the namespaces: either the
      namespaces in the order the API returns them, or what was raised. */
  type Cluster = Result<seq<NamespaceListing>, Exception>

  // ---------------------------------------------------------------------
  // Records and envelopes

  datatype Condition = Condition(conditionType: string, status: string)

  datatype AppRecord = AppRecord(
    namespace: string,
    name: string,
    applicationName: string,
    annotations: map<string, string>,
    creationDate: Option<string>,
    condition: Option<seq<Condition>>,
    color: string,
    replicasOff: int,
    replicasOn: int,
    replicasCurrent: int)

  /** {"status": "success", "data": [...]} or {"status": "error", "message": ...} */
  datatype ListEnvelope = ListSuccess(data: seq<AppRecord>) | ListError(message: string) {
    function Status(): string {
      if ListSuccess? then "success" else "error"
    }
  }

  const EnabledKey: string := "kuyala.enabled"
  const ReplicasOffKey: string := "kuyala.replicasOff"
  const ReplicasOnKey: string := "kuyala.replicasOn"
  const ApplicationNameKey: string := "kuyala.applicationName"
  const ColorKey: string := "kuyala.color"

  const DefaultReplicasOff: int := 0
  const DefaultReplicasOn: int := 1
  const DefaultScale: int := 1

  const ApiErrorPrefix: string := "Kubernetes API error: "
  const UnexpectedErrorPrefix: string := "An unexpected error occurred: "

  /** The `message` of an error envelope: the API's reason, or the text of
      any other exception, behind a prefix that tells the two apart. */
  function ErrorMessage(e: Exception): (m: string)
    ensures e.ApiException? ==> m == ApiErrorPrefix + e.reason
    ensures e.OtherException? ==> m == UnexpectedErrorPrefix + e.text
    ensures |m| >= |ApiErrorPrefix| && (e.ApiException? <==> m[..|ApiErrorPrefix|] == ApiErrorPrefix)
  {
    match e
    case ApiException(reason) => ApiErrorPrefix + reason
    case OtherException(text) =>
      assert (UnexpectedErrorPrefix + text)[0] != ApiErrorPrefix[0];
      UnexpectedErrorPrefix + text
  }

  /** `dep.metadata.annotations or {}` */
  function Annotations(dep: KubeDeployment): (a: map<string, string>)
    ensures dep.annotations.None? ==> a == map[]
    ensures dep.annotations.Some? ==> a == dep.annotations.value
  {
    dep.annotations.GetOr(map[])
  }

  /** A deployment without annotations is not enabled. */
  predicate Enabled(dep: KubeDeployment)
    ensures Enabled(dep) <==> dep.annotations.Some? && EnabledKey in dep.annotations.value
  {
    EnabledKey in Annotations(dep)
  }

  /** `int(annotations.get(key, default))` */
  function AnnotationInt(annotations: map<string, string>, key: string, default: int): (r: Result<int, Exception>)
    ensures key !in annotations ==> r == Success(default)
    ensures key in annotations ==>
      (r.Success? <==> PyInt.ParseInt(annotations[key]).Some?)
    ensures r.Success? && key in annotations ==> Some(r.value) == PyInt.ParseInt(annotations[key])
  {
    if key !in annotations then Success(default)
    else
      match PyInt.ParseInt(annotations[key])
      case Some(v) => Success(v)
      case None => Failure(OtherException(PyInt.InvalidLiteralMessage(annotations[key])))
  }

  /** `getattr(dep.status, "replicas", 0)`, with a falsy value turned into 0. */
  function ReplicasCurrent(dep: KubeDeployment): (n: int)
    ensures dep.status.None? ==> n == 0
    ensures dep.status.Some? && dep.status.value.replicas.None? ==> n == 0
    ensures dep.status.Some? && dep.status.value.replicas.Some? ==> n == dep.status.value.replicas.value
  {
    match dep.status
    case None => 0
    case Some(st) => st.replicas.GetOr(0)
  }

  /** The `condition` list: present only when there is a status with a
      non-empty list of conditions. */
  function Conditions(dep: KubeDeployment): (c: Option<seq<Condition>>)
    ensures c.Some? <==> dep.status.Some? && dep.status.value.conditions.Some? && dep.status.value.conditions.value != []
    ensures c.Some? ==> (
      && |c.value| == |dep.status.value.conditions.value|
      && forall k :: 0 <= k < |c.value| ==>
           c.value[k] == Condition(dep.status.value.conditions.value[k].conditionType,
                                   dep.status.value.conditions.value[k].status))
  {
    if dep.status.Some? && dep.status.value.conditions.Some? && dep.status.value.conditions.value != [] then
      var cs := dep.status.value.conditions.value;
      Some(seq(|cs|, k requires 0 <= k < |cs| => Condition(cs[k].conditionType, cs[k].status)))
    else None
  }

  /** The record of one enabled deployment in namespace ns.  replicasOff is
      converted before replicasOn, so a bad replicasOff is the one reported. */
  function BuildRecord(ns: string, dep: KubeDeployment): (r: Result<AppRecord, Exception>)
    ensures r.Success? <==>
      AnnotationInt(Annotations(dep), ReplicasOffKey, DefaultReplicasOff).Success? &&
      AnnotationInt(Annotations(dep), ReplicasOnKey, DefaultReplicasOn).Success?
    ensures r.Failure? && AnnotationInt(Annotations(dep), ReplicasOffKey, DefaultReplicasOff).Failure? ==>
      r.error == AnnotationInt(Annotations(dep), ReplicasOffKey, DefaultReplicasOff).error
    ensures r.Failure? && AnnotationInt(Annotations(dep), ReplicasOffKey, DefaultReplicasOff).Success? ==>
      r.error == AnnotationInt(Annotations(dep), ReplicasOnKey, DefaultReplicasOn).error
    ensures r.Success? ==>
      var ann := Annotations(dep);
      && r.value.namespace == ns && r.value.name == dep.name
      && r.value.annotations == ann
      && r.value.applicationName == (if ApplicationNameKey in ann then ann[ApplicationNameKey] else dep.name)
      && r.value.color == (if ColorKey in ann then ann[ColorKey] else "")
      && r.value.replicasOff == AnnotationInt(ann, ReplicasOffKey, DefaultReplicasOff).value
      && r.value.replicasOn == AnnotationInt(ann, ReplicasOnKey, DefaultReplicasOn).value
      && r.value.replicasCurrent == ReplicasCurrent(dep)
      && r.value.creationDate == dep.creationTimestamp
      && r.value.condition == Conditions(dep)
  {
    var ann := Annotations(dep);
    match AnnotationInt(ann, ReplicasOffKey, DefaultReplicasOff)
    case Failure(e) => Failure(e)
    case Success(off) =>
      match AnnotationInt(ann, ReplicasOnKey, DefaultReplicasOn)
      case Failure(e) => Failure(e)
      case Success(on) =>
        Success(AppRecord(
          ns, dep.name,
          if ApplicationNameKey in ann then ann[ApplicationNameKey] else dep.name,
          ann, dep.creationTimestamp, Conditions(dep),
          if ColorKey in ann then ann[ColorKey] else "",
          off, on, ReplicasCurrent(dep)))
  }

  // ---------------------------------------------------------------------
  // The listing loop as a fold over prefixes (what the loops compute)

  /** The records of one namespace, in deployment order; the first
      exception stops the walk. */
  function NamespaceRecords(ns: string, deps: seq<KubeDeployment>): (r: Result<seq<AppRecord>, Exception>)
    ensures r.Success? ==> |r.value| <= |deps|
    ensures r.Success? ==> forall k :: 0 <= k < |r.value| ==> r.value[k].namespace == ns
  {
    if deps == [] then Success([])
    else
      match NamespaceRecords(ns, deps[..|deps| - 1])
      case Failure(e) => Failure(e)
      case Success(rs) =>
        var dep := deps[|deps| - 1];
        if !Enabled(dep) then Success(rs)
        else
          match BuildRecord(ns, dep)
          case Failure(e) => Failure(e)
          case Success(r) => Success(rs + [r])
  }

  /** The records of all namespaces, namespace after namespace. */
  function CollectRecords(listings: seq<NamespaceListing>): (r: Result<seq<AppRecord>, Exception>)
    ensures r.Success? ==> forall k :: 0 <= k < |listings| ==> listings[k].deployments.Success?
  {
    if listings == [] then Success([])
    else
      match CollectRecords(listings[..|listings| - 1])
      case Failure(e) => Failure(e)
      case Success(before) =>
        var last := listings[|listings| - 1];
        match last.deployments
        case Failure(e) => Failure(e)
        case Success(deps) =>
          match NamespaceRecords(last.name, deps)
          case Failure(e) => Failure(e)
          case Success(rs) => Success(before + rs)
  }

  function Envelope(r: Result<seq<AppRecord>, Exception>): ListEnvelope {
    match r
    case Success(data) => ListSuccess(data)
    case Failure(e) => ListError(ErrorMessage(e))
  }

  /** The envelope get_current_list returns for a cluster. */
  function ListEnvelopeOf(cluster: Cluster): (env: ListEnvelope)
    ensures env.ListError? <==> cluster.Failure? || CollectRecords(cluster.value).Failure?
    ensures env.ListSuccess? ==> CollectRecords(cluster.value) == Success(env.data)
  {
    match cluster
    case Failure(e) => ListError(ErrorMessage(e))
    case Success(listings) => Envelope(CollectRecords(listings))
  }

  // ---------------------------------------------------------------------
  // get_current_list, as the nested loops that build result_data

  method GetCurrentList(cluster: Cluster) returns (envelope: ListEnvelope)
    ensures envelope == ListEnvelopeOf(cluster)
  {
    if cluster.Failure? {
      return ListError(ErrorMessage(cluster.error));
    }
    var namespaces := cluster.value;
    var resultData: seq<AppRecord> := [];
    var i := 0;
    while i < |namespaces|
      invariant 0 <= i <= |namespaces|
      invariant CollectRecords(namespaces[..i]) == Success(resultData)
    {
      var ns := namespaces[i];
      assert namespaces[..i + 1][..i] == namespaces[..i];
      if ns.deployments.Failure? {
        CollectFailureSticks(namespaces, i + 1);
        return ListError(ErrorMessage(ns.deployments.error));
      }
      var appended := AppendNamespace(ns.name, ns.deployments.value, resultData);
      if appended.Failure? {
        CollectFailureSticks(namespaces, i + 1);
        return ListError(ErrorMessage(appended.error));
      }
      resultData := appended.value;
      i := i + 1;
    }
    assert namespaces[..i] == namespaces;
    return ListSuccess(resultData);
  }

  /** The inner loop of get_current_list: the records of one namespace's
      deployments appended to resultData, or the first exception raised. */
  method AppendNamespace(ns: string, deployments: seq<KubeDeployment>, resultData: seq<AppRecord>)
    returns (r: Result<seq<AppRecord>, Exception>)
    ensures NamespaceRecords(ns, deployments).Success? ==>
      r == Success(resultData + NamespaceRecords(ns, deployments).value)
    ensures NamespaceRecords(ns, deployments).Failure? ==>
      r == Failure(NamespaceRecords(ns, deployments).error)
  {
    var data := resultData;
    var j := 0;
    assert deployments[..0] == [] && data[|resultData|..] == [];
    while j < |deployments|
      invariant 0 <= j <= |deployments|
      invariant |resultData| <= |data| && data[..|resultData|] == resultData
      invariant NamespaceRecords(ns, deployments[..j]) == Success(data[|resultData|..])
    {
      var dep := deployments[j];
      assert deployments[..j + 1][..j] == deployments[..j];
      if Enabled(dep) {
        var record := BuildRecord(ns, dep);
        if record.Failure? {
          NamespaceFailureSticks(ns, deployments, j + 1);
          return Failure(record.error);
        }
        assert (data + [record.value])[|resultData|..] == data[|resultData|..] + [record.value];
        data := data + [record.value];
      }
      j := j + 1;
    }
    assert deployments[..j] == deployments;
    assert resultData + data[|resultData|..] == data;
    return Success(data);
  }

  lemma {:induction false} NamespaceFailureSticks(ns: string, deps: seq<KubeDeployment>, n: nat)
    requires n <= |deps| && NamespaceRecords(ns, deps[..n]).Failure?
    ensures NamespaceRecords(ns, deps) == NamespaceRecords(ns, deps[..n])
    decreases |deps| - n
  {
    if n < |deps| {
      assert deps[..n + 1][..n] == deps[..n];
      NamespaceFailureSticks(ns, deps, n + 1);
    } else {
      assert deps[..n] == deps;
    }
  }

  lemma {:induction false} CollectFailureSticks(listings: seq<NamespaceListing>, n: nat)
    requires n <= |listings| && CollectRecords(listings[..n]).Failure?
    ensures CollectRecords(listings) == CollectRecords(listings[..n])
    decreases |listings| - n
  {
    if n < |listings| {
      assert listings[..n + 1][..n] == listings[..n];
      CollectFailureSticks(listings, n + 1);
    } else {
      assert listings[..n] == listings;
    }
  }

  // ---------------------------------------------------------------------
  // What the listing promises, against filter-then-build

  /** The enabled deployments, in listing order. */
  function EnabledOnly(deps: seq<KubeDeployment>): (e: seq<KubeDeployment>)
    ensures forall k :: 0 <= k < |e| ==> Enabled(e[k])
    ensures forall d :: d in e <==> d in deps && Enabled(d)
  {
    if deps == [] then []
    else if Enabled(deps[|deps| - 1]) then EnabledOnly(deps[..|deps| - 1]) + [deps[|deps| - 1]]
    else EnabledOnly(deps[..|deps| - 1])
  }

  /** Every enabled deployment's annotations convert. */
  predicate AllConvert(ns: string, deps: seq<KubeDeployment>) {
    forall d :: d in EnabledOnly(deps) ==> BuildRecord(ns, d).Success?
  }

  /** A namespace yields a list exactly when every enabled deployment's
      annotations convert; the list has one record per enabled deployment,
      in listing order; a failure is the error of the first enabled deployment
      whose annotations do not convert. */
  lemma {:induction false} NamespaceRecordsCorrect(ns: string, deps: seq<KubeDeployment>)
    ensures NamespaceRecords(ns, deps).Success? <==> AllConvert(ns, deps)
    ensures NamespaceRecords(ns, deps).Success? ==>
      var rs := NamespaceRecords(ns, deps).value;
      |rs| == |EnabledOnly(deps)| &&
      forall k :: 0 <= k < |rs| ==> BuildRecord(ns, EnabledOnly(deps)[k]) == Success(rs[k])
    ensures NamespaceRecords(ns, deps).Failure? ==>
      exists i :: FirstFailureAt(ns, EnabledOnly(deps), i, NamespaceRecords(ns, deps).error)
  {
    if deps != [] {
      var init := deps[..|deps| - 1];
      var dep := deps[|deps| - 1];
      NamespaceRecordsCorrect(ns, init);
      var before := EnabledOnly(init);
      if Enabled(dep) {
        assert EnabledOnly(deps) == before + [dep];
        if NamespaceRecords(ns, init).Failure? {
          var i :| FirstFailureAt(ns, before, i, NamespaceRecords(ns, init).error);
          assert FirstFailureAt(ns, EnabledOnly(deps), i, NamespaceRecords(ns, deps).error);
        } else if BuildRecord(ns, dep).Failure? {
          assert dep in EnabledOnly(deps);
          assert FirstFailureAt(ns, EnabledOnly(deps), |before|, NamespaceRecords(ns, deps).error);
        }
      } else {
        assert EnabledOnly(deps) == before;
      }
    }
  }

  /** The i-th enabled deployment is the first whose record fails, with e. */
  ghost predicate FirstFailureAt(ns: string, enabled: seq<KubeDeployment>, i: int, e: Exception) {
    && 0 <= i < |enabled|
    && BuildRecord(ns, enabled[i]) == Failure(e)
    && forall j :: 0 <= j < i ==> BuildRecord(ns, enabled[j]).Success?
  }

  /** Only deployments annotated kuyala.enabled produce records, and each of
      them produces exactly one, named after it and in its namespace. */
  lemma RecordsOnlyForEnabled(ns: string, deps: seq<KubeDeployment>, k: nat)
    requires NamespaceRecords(ns, deps).Success?
    requires k < |NamespaceRecords(ns, deps).value|
    ensures var r := NamespaceRecords(ns, deps).value[k];
      r.namespace == ns &&
      exists d :: d in deps && Enabled(d) && d.name == r.name && BuildRecord(ns, d) == Success(r)
  {
    NamespaceRecordsCorrect(ns, deps);
    var d := EnabledOnly(deps)[k];
    assert d in EnabledOnly(deps);
  }

  /** The records of all namespaces: namespace after namespace, each in
      deployment order. */
  function Flatten(listings: seq<NamespaceListing>): seq<AppRecord> {
    if listings == [] then []
    else
      var last := listings[|listings| - 1];
      var rs := if last.deployments.Success? then NamespaceRecords(last.name, last.deployments.value)
                else Success([]);
      Flatten(listings[..|listings| - 1]) + (if rs.Success? then rs.value else [])
  }

  /** get_current_list succeeds exactly when every namespace could be
      listed and every enabled deployment's annotations convert; the data
      is then the namespaces' records in namespace order. */
  lemma {:induction false} CollectRecordsCorrect(listings: seq<NamespaceListing>)
    ensures CollectRecords(listings).Success? <==>
      forall k :: 0 <= k < |listings| ==>
        listings[k].deployments.Success? &&
        AllConvert(listings[k].name, listings[k].deployments.value)
    ensures CollectRecords(listings).Success? ==> CollectRecords(listings).value == Flatten(listings)
  {
    if listings != [] {
      var init := listings[..|listings| - 1];
      var last := listings[|listings| - 1];
      CollectRecordsCorrect(init);
      if last.deployments.Success? {
        NamespaceRecordsCorrect(last.name, last.deployments.value);
      }
      assert forall k :: 0 <= k < |init| ==> init[k] == listings[k];
    }
  }

  /** The envelope is an error exactly when something was raised, and then
      it carries that exception's message; otherwise it carries the data. */
  lemma EnvelopeShape(cluster: Cluster)
    ensures ListEnvelopeOf(cluster).Status() == "error" <==>
      cluster.Failure? || CollectRecords(cluster.value).Failure?
    ensures cluster.Failure? ==> ListEnvelopeOf(cluster) == ListError(ErrorMessage(cluster.error))
    ensures cluster.Success? && CollectRecords(cluster.value).Failure? ==>
      ListEnvelopeOf(cluster) == ListError(ErrorMessage(CollectRecords(cluster.value).error))
    ensures cluster.Success? && CollectRecords(cluster.value).Success? ==>
      ListEnvelopeOf(cluster) == ListSuccess(Flatten(cluster.value))
  {
    if cluster.Success? {
      CollectRecordsCorrect(cluster.value);
    }
  }

  /** An annotation int() cannot parse turns the whole listing into an error. */
  lemma UnparsableAnnotationFails(listings: seq<NamespaceListing>, k: nat, dep: KubeDeployment)
    requires k < |listings| && listings[k].deployments.Success?
    requires dep in listings[k].deployments.value && Enabled(dep)
    requires ReplicasOnKey in Annotations(dep) && PyInt.ParseInt(Annotations(dep)[ReplicasOnKey]).None?
    ensures ListEnvelopeOf(Success(listings)).ListError?
  {
    CollectRecordsCorrect(listings);
    assert dep in EnabledOnly(listings[k].deployments.value);
  }

  // ---------------------------------------------------------------------
  // action

  /** A JSON value as request.get_json() yields it (floats are not modelled). */
  datatype JsonValue = JNull | JBool(b: bool) | JInt(i: int) | JString(s: string) | JArray | JObject

  /** The request body; a field is None when the key is absent. */
  datatype ActionRequest = ActionRequest(namespace: Option<JsonValue>, name: Option<JsonValue>, scale: Option<JsonValue>)

  /** How the cluster answered the scale patch (config loading included). */
  datatype PatchOutcome = Patched | PatchFailed(e: Exception)

  /** `action` either raises (the conversion of the scale happens before the
      try) or returns the scale, or None when the patch failed. */
  datatype ActionResult = Raised(e: Exception) | Returned(scaled: Option<int>)

  function TypeErrorMessage(typeName: string): string {
    "int() argument must be a string, a bytes-like object or a real number, not '" + typeName + "'"
  }

  /** Python's int() on a JSON value. */
  function IntOfJson(v: JsonValue): (r: Result<int, Exception>)
    ensures v.JInt? ==> r == Success(v.i)
    ensures v.JBool? ==> r == Success(if v.b then 1 else 0)
    ensures v.JString? ==> (r.Success? <==> PyInt.ParseInt(v.s).Some?)
    ensures v.JString? && r.Success? ==> Some(r.value) == PyInt.ParseInt(v.s)
    ensures v.JNull? || v.JArray? || v.JObject? ==> r.Failure?
  {
    match v
    case JNull => Failure(OtherException(TypeErrorMessage("NoneType")))
    case JBool(b) => Success(if b then 1 else 0)
    case JInt(i) => Success(i)
    case JString(s) =>
      (match PyInt.ParseInt(s)
       case Some(n) => Success(n)
       case None => Failure(OtherException(PyInt.InvalidLiteralMessage(s))))
    case JArray => Failure(OtherException(TypeErrorMessage("list")))
    case JObject => Failure(OtherException(TypeErrorMessage("dict")))
  }

  /** `int(data.get('scale', 1))` */
  function ScaleOf(req: ActionRequest): (r: Result<int, Exception>)
    ensures req.scale.None? ==> r == Success(DefaultScale)
    ensures req.scale.Some? ==> r == IntOfJson(req.scale.value)
  {
    match req.scale
    case None => Success(DefaultScale)
    case Some(v) => IntOfJson(v)
  }

  /** The call `patch_namespaced_deployment_scale(name, namespace,
      {'spec': {'replicas': scale}})`: the name and namespace exactly as the
      request gave them (None when absent) and the replica count. */
  datatype ScalePatch = ScalePatch(name: Option<JsonValue>, namespace: Option<JsonValue>, replicas: int)

  /** The patch action sends, or None when converting the scale raised and
      nothing is sent. */
  function PatchRequest(req: ActionRequest): (p: Option<ScalePatch>)
    ensures p.Some? <==> ScaleOf(req).Success?
    ensures p.Some? ==>
      (p.value.name == req.name && p.value.namespace == req.namespace && p.value.replicas == ScaleOf(req).value)
  {
    match ScaleOf(req)
    case Failure(_) => None
    case Success(scale) => Some(ScalePatch(req.name, req.namespace, scale))
  }

  function Action(req: ActionRequest, patch: PatchOutcome): (r: ActionResult)
    ensures ScaleOf(req).Failure? <==> r.Raised?
    ensures r.Raised? <==> PatchRequest(req).None?
    ensures r.Returned? ==> (r.scaled.Some? <==> patch.Patched?)
    ensures r.Returned? && r.scaled.Some? ==> r.scaled.value == ScaleOf(req).value
    ensures r.Returned? && r.scaled.Some? ==> r.scaled.value == PatchRequest(req).value.replicas
  {
    match ScaleOf(req)
    case Failure(e) => Raised(e)
    case Success(scale) =>
      match patch
      case Patched => Returned(Some(scale))
      case PatchFailed(_) => Returned(None)
  }

  /** A request without a scale asks for one replica. */
  lemma ActionDefaultScale(req: ActionRequest)
    requires req.scale.None?
    ensures Action(req, Patched) == Returned(Some(1))
    ensures forall e :: Action(req, PatchFailed(e)) == Returned(None)
  {
  }

  /** A scale the client sent as a number, or as its decimal text, is the
      replica count patched and returned. */
  lemma ActionScaleRoundTrip(req: ActionRequest, n: int)
    requires req.scale == Some(JInt(n)) || req.scale == Some(JString(PyInt.IntToString(n)))
    ensures PatchRequest(req) == Some(ScalePatch(req.name, req.namespace, n))
    ensures Action(req, Patched) == Returned(Some(n))
  {
    PyInt.ParseIntRoundTrip(n);
  }
}
