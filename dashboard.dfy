/** The value-level rules of app/static/js/apps.js: how a deployment is
    keyed, how its card is named and what it shows, which scale a toggle
    requests, how snapshots and deltas change the deployments map, and the
    reconnect backoff.  The class in sse_client.dfy applies these rules to
    its fields. */
module Dashboard {
  import opened Wrappers

  /** A deployment as the client holds it; only the fields the client reads.
      Display hints (colours, creation date, conditions) are not modelled. */
  datatype Deployment = Deployment(
    namespace: string,
    name: string,
    applicationName: string,
    replicasCurrent: int,
    replicasOn: int,
    replicasOff: int)

  /** A `deployment_update` event: its `type` and the deployment fields. */
  datatype DeploymentUpdate = DeploymentUpdate(kind: string, deployment: Deployment)

  const Added: string := "ADDED"
  const Modified: string := "MODIFIED"
  const Deleted: string := "DELETED"

  const MaxReconnectAttempts: nat := 10
  const ReconnectDelay: nat := 3000
  /** The backoff multiplier stops growing at this attempt. */
  const BackoffCap: nat := 5

  // ---------------------------------------------------------------------
  // Keys and card ids

  /** `${namespace}/${name}` */
  function Key(namespace: string, name: string): string {
    namespace + "/" + name
  }

  /** The key is the namespace, a '/', then the name. */
  lemma KeyLayout(namespace: string, name: string)
    ensures var k := Key(namespace, name);
      && |k| == |namespace| + 1 + |name| && k[|namespace|] == '/'
      && k[..|namespace|] == namespace && k[|namespace| + 1..] == name
  {
  }

  function KeyOf(d: Deployment): string {
    Key(d.namespace, d.name)
  }

  /** Kubernetes namespaces contain no '/', and then the key determines the
      namespace and the name. */
  lemma KeyInjective(ns1: string, name1: string, ns2: string, name2: string)
    requires '/' !in ns1 && '/' !in ns2
    requires Key(ns1, name1) == Key(ns2, name2)
    ensures ns1 == ns2 && name1 == name2
  {
    var k := Key(ns1, name1);
    assert k[|ns1|] == '/' && k[|ns2|] == '/';
    assert forall i :: 0 <= i < |ns1| ==> k[i] == ns1[i] && ns1[i] != '/';
    assert forall i :: 0 <= i < |ns2| ==> k[i] == ns2[i] && ns2[i] != '/';
    assert ns1 == k[..|ns1|] == ns2;
    assert name1 == k[|ns1| + 1..] == name2;
  }

  /** `s.replace(/\//g, '-')` */
  function ReplaceSlashes(s: string): (r: string)
    ensures |r| == |s|
    ensures forall i :: 0 <= i < |s| ==> r[i] == (if s[i] == '/' then '-' else s[i])
  {
    if s == [] then [] else [if s[0] == '/' then '-' else s[0]] + ReplaceSlashes(s[1..])
  }

  lemma ReplaceSlashesConcat(a: string, b: string)
    ensures ReplaceSlashes(a + b) == ReplaceSlashes(a) + ReplaceSlashes(b)
  {
    var l, r := ReplaceSlashes(a + b), ReplaceSlashes(a) + ReplaceSlashes(b);
    assert |l| == |r|;
    forall i | 0 <= i < |l| ensures l[i] == r[i] {
      if i < |a| { assert (a + b)[i] == a[i]; } else { assert (a + b)[i] == b[i - |a|]; }
    }
  }

  /** `card-${key.replace(/\//g, '-')}` */
  function CardId(key: string): (id: string)
    ensures |id| == |key| + 5 && id[..5] == "card-"
    ensures forall i :: 0 <= i < |key| ==> id[i + 5] == (if key[i] == '/' then '-' else key[i])
  {
    "card-" + ReplaceSlashes(key)
  }

  /** A card id holds no '/'. */
  lemma CardIdHasNoSlash(key: string)
    ensures '/' !in CardId(key)
  {
    var c := CardId(key);
    forall i | 0 <= i < |c| ensures c[i] != '/' {
      if i >= 5 { assert c[i] == ReplaceSlashes(key)[i - 5]; }
    }
  }

  /** toggleDeployment finds its button by `card-${namespace}-${name}` with
      slashes replaced; that is the id createDeploymentCard gave the card. */
  lemma ToggleFindsCardButton(namespace: string, name: string)
    ensures ReplaceSlashes("card-" + namespace + "-" + name) == CardId(Key(namespace, name))
  {
    var a := "card-" + namespace + "-" + name;
    var key := Key(namespace, name);
    var b := CardId(key);
    var l := ReplaceSlashes(a);
    assert |l| == |b|;
    forall i | 0 <= i < |l| ensures l[i] == b[i] {
      if i >= 5 {
        assert b[i] == ReplaceSlashes(key)[i - 5];
        if i - 5 < |namespace| {
          assert a[i] == key[i - 5] == namespace[i - 5];
        } else if i - 5 == |namespace| {
          assert a[i] == '-' && key[i - 5] == '/';
        } else {
          assert a[i] == key[i - 5] == name[i - 6 - |namespace|];
        }
      }
    }
  }

  /** Card ids are not unique: moving a '-' across the '/' of a key (say
      namespace "team-a" with deployment "web", and namespace "team" with
      deployment "a-web") gives a different key with the same card id, so
      creating one card removes the other's. */
  lemma CardIdCollision(a: string, b: string, c: string)
    ensures Key(a + "-" + b, c) != Key(a, b + "-" + c)
    ensures CardId(Key(a + "-" + b, c)) == CardId(Key(a, b + "-" + c))
  {
    var k1, k2 := Key(a + "-" + b, c), Key(a, b + "-" + c);
    assert k1[|a|] == '-' && k2[|a|] == '/';
    var r1, r2 := ReplaceSlashes(k1), ReplaceSlashes(k2);
    forall i | 0 <= i < |k1| ensures r1[i] == r2[i] {
      if i < |a| {
        assert k1[i] == a[i] == k2[i];
      } else if i == |a| {
      } else if i < |a| + 1 + |b| {
        assert k1[i] == b[i - |a| - 1] == k2[i];
      } else if i == |a| + 1 + |b| {
        assert k1[i] == '/' && k2[i] == '-';
      } else {
        assert k1[i] == c[i - |a| - 2 - |b|] == k2[i];
      }
    }
    assert r1 == r2;
  }

  // ---------------------------------------------------------------------
  // What a card shows and which scale its button requests

  /** The values createDeploymentCard and updateDeploymentCard derive. */
  datatype CardView = CardView(
    isOn: bool,
    statusText: string,
    buttonText: string,
    willScaleTo: int,
    turnOn: bool)

  function ViewOf(d: Deployment): (v: CardView)
    ensures v.isOn <==> d.replicasCurrent > 0
    ensures v.turnOn == !v.isOn
    ensures v.willScaleTo == (if v.turnOn then d.replicasOn else d.replicasOff)
    ensures v.buttonText == (if v.turnOn then "Turn On" else "Turn Off")
    ensures v.statusText == (if v.isOn then "Running" else "Stopped")
  {
    var isOn := d.replicasCurrent > 0;
    CardView(
      isOn,
      if isOn then "Running" else "Stopped",
      if isOn then "Turn Off" else "Turn On",
      if isOn then d.replicasOff else d.replicasOn,
      !isOn)
  }

  /** The scale toggleDeployment requests for a known deployment. */
  function ToggleScale(d: Deployment, turnOn: bool): (scale: int)
    ensures turnOn ==> scale == d.replicasOn
    ensures !turnOn ==> scale == d.replicasOff
  {
    if turnOn then d.replicasOn else d.replicasOff
  }

  /** A card is on exactly when replicas are running, and then it offers
      "Turn Off" towards replicasOff; otherwise "Turn On" towards replicasOn. */
  lemma CardOffersOppositeState(d: Deployment)
    ensures ViewOf(d).isOn <==> d.replicasCurrent > 0
    ensures ViewOf(d).isOn ==> (ViewOf(d).buttonText == "Turn Off" && ViewOf(d).statusText == "Running"
      && ViewOf(d).willScaleTo == d.replicasOff && !ViewOf(d).turnOn)
    ensures !ViewOf(d).isOn ==> (ViewOf(d).buttonText == "Turn On" && ViewOf(d).statusText == "Stopped"
      && ViewOf(d).willScaleTo == d.replicasOn && ViewOf(d).turnOn)
  {
  }

  /** Clicking the button requests exactly the scale the card announces. */
  lemma ButtonRequestsAnnouncedScale(d: Deployment)
    ensures ToggleScale(d, ViewOf(d).turnOn) == ViewOf(d).willScaleTo
  {
  }

  /** With replicasOff <= 0 < replicasOn (the defaults are 0 and 1), once
      the requested scale is reached the card shows the other state. */
  lemma ToggleFlipsCard(d: Deployment)
    requires d.replicasOff <= 0 < d.replicasOn
    ensures var after := d.(replicasCurrent := ToggleScale(d, ViewOf(d).turnOn));
      ViewOf(after).isOn == !ViewOf(d).isOn
  {
  }

  // ---------------------------------------------------------------------
  // The deployments map

  /** Every entry is stored under its own namespace/name key. */
  ghost predicate KeysConsistent(m: map<string, Deployment>) {
    forall k :: k in m ==> KeyOf(m[k]) == k
  }

  /** handleDeploymentUpdate on the map. */
  function ApplyUpdate(m: map<string, Deployment>, u: DeploymentUpdate): (r: map<string, Deployment>)
    ensures r.Keys - {KeyOf(u.deployment)} == m.Keys - {KeyOf(u.deployment)}
    ensures u.kind == Added || u.kind == Modified ==>
      KeyOf(u.deployment) in r && r[KeyOf(u.deployment)] == u.deployment
    ensures u.kind == Deleted ==> KeyOf(u.deployment) !in r
  {
    var key := KeyOf(u.deployment);
    if u.kind == Added || u.kind == Modified then m[key := u.deployment]
    else if u.kind == Deleted then m - {key}
    else m
  }

  /** ADDED and MODIFIED store the update under its key, replacing what was
      there; no other key changes. */
  lemma UpsertStoresUnderKey(m: map<string, Deployment>, u: DeploymentUpdate)
    requires u.kind == Added || u.kind == Modified
    ensures var r := ApplyUpdate(m, u);
      && KeyOf(u.deployment) in r && r[KeyOf(u.deployment)] == u.deployment
      && r.Keys == m.Keys + {KeyOf(u.deployment)}
      && forall k :: k in m && k != KeyOf(u.deployment) ==> r[k] == m[k]
  {
  }

  /** DELETED removes its key and nothing else; a delete for an absent key
      changes nothing; an unrecognised type changes nothing. */
  lemma DeleteRemovesOnlyKey(m: map<string, Deployment>, u: DeploymentUpdate)
    ensures u.kind == Deleted ==>
      var r := ApplyUpdate(m, u);
      && r.Keys == m.Keys - {KeyOf(u.deployment)}
      && (forall k :: k in r ==> r[k] == m[k])
      && (KeyOf(u.deployment) !in m ==> r == m)
    ensures u.kind != Added && u.kind != Modified && u.kind != Deleted ==> ApplyUpdate(m, u) == m
  {
  }

  lemma ApplyUpdateKeepsKeys(m: map<string, Deployment>, u: DeploymentUpdate)
    requires KeysConsistent(m)
    ensures KeysConsistent(ApplyUpdate(m, u))
  {
  }

  /** A stream of deltas, applied in order. */
  function ApplyUpdates(m: map<string, Deployment>, us: seq<DeploymentUpdate>): map<string, Deployment> {
    if us == [] then m else ApplyUpdate(ApplyUpdates(m, us[..|us| - 1]), us[|us| - 1])
  }

  /** Whether an update acts on key k. */
  predicate Touches(u: DeploymentUpdate, k: string) {
    KeyOf(u.deployment) == k && (u.kind == Added || u.kind == Modified || u.kind == Deleted)
  }

  /** A delta that does not act on key k leaves k as it was. */
  lemma UntouchedKeyKept(m: map<string, Deployment>, u: DeploymentUpdate, k: string)
    requires !Touches(u, k)
    ensures k in ApplyUpdate(m, u) <==> k in m
    ensures k in m ==> ApplyUpdate(m, u)[k] == m[k]
  {
  }

  /** After replaying deltas, each key reflects the last delta that acted on
      it: absent if that was a DELETED, that delta's deployment otherwise;
      a key no delta acted on keeps its earlier state. */
  lemma {:induction false} ReplayLastWins(m: map<string, Deployment>, us: seq<DeploymentUpdate>, k: string)
    ensures (forall i :: 0 <= i < |us| ==> !Touches(us[i], k)) ==>
      (k in ApplyUpdates(m, us) <==> k in m) && (k in m ==> ApplyUpdates(m, us)[k] == m[k])
    ensures forall i :: (0 <= i < |us| && Touches(us[i], k) &&
        (forall j :: i < j < |us| ==> !Touches(us[j], k))) ==>
      if us[i].kind == Deleted then k !in ApplyUpdates(m, us)
      else k in ApplyUpdates(m, us) && ApplyUpdates(m, us)[k] == us[i].deployment
  {
    if us != [] {
      var init := us[..|us| - 1];
      var last := us[|us| - 1];
      ReplayLastWins(m, init, k);
      assert forall i :: 0 <= i < |init| ==> init[i] == us[i];
      assert ApplyUpdates(m, us) == ApplyUpdate(ApplyUpdates(m, init), last);
      if !Touches(last, k) {
        UntouchedKeyKept(ApplyUpdates(m, init), last, k);
      }
    }
  }

  /** renderDeployments on the map: cleared, then filled in input order. */
  function SnapshotMap(ds: seq<Deployment>): (m: map<string, Deployment>)
    ensures ds == [] ==> m == map[]
    ensures ds != [] ==> KeyOf(ds[|ds| - 1]) in m && m[KeyOf(ds[|ds| - 1])] == ds[|ds| - 1]
  {
    if ds == [] then map[] else SnapshotMap(ds[..|ds| - 1])[KeyOf(ds[|ds| - 1]) := ds[|ds| - 1]]
  }

  /** The snapshot holds exactly the keys of the input, each stored under
      its own key. */
  lemma {:induction false} SnapshotKeys(ds: seq<Deployment>)
    ensures SnapshotMap(ds).Keys == set d | d in ds :: KeyOf(d)
    ensures KeysConsistent(SnapshotMap(ds))
  {
    if ds != [] {
      var init := ds[..|ds| - 1];
      var last := ds[|ds| - 1];
      SnapshotKeys(init);
      assert SnapshotMap(ds) == SnapshotMap(init)[KeyOf(last) := last];
      assert ds == init + [last];
    }
  }

  /** Each key of the snapshot holds the last deployment of the input with
      that key. */
  lemma {:induction false} SnapshotLastWins(ds: seq<Deployment>)
    ensures forall k :: k in SnapshotMap(ds) ==>
      exists i :: 0 <= i < |ds| && ds[i] == SnapshotMap(ds)[k] &&
        forall j :: i < j < |ds| ==> KeyOf(ds[j]) != k
  {
    if ds != [] {
      var init := ds[..|ds| - 1];
      var last := ds[|ds| - 1];
      SnapshotLastWins(init);
      var m := SnapshotMap(ds);
      assert m == SnapshotMap(init)[KeyOf(last) := last];
      forall k | k in m
        ensures exists i :: 0 <= i < |ds| && ds[i] == m[k] && forall j :: i < j < |ds| ==> KeyOf(ds[j]) != k
      {
        if k == KeyOf(last) {
          assert ds[|ds| - 1] == m[k];
        } else {
          var i :| 0 <= i < |init| && init[i] == SnapshotMap(init)[k]
            && forall j :: i < j < |init| ==> KeyOf(init[j]) != k;
          assert ds[i] == m[k];
          assert forall j :: i < j < |ds| - 1 ==> ds[j] == init[j];
        }
      }
    }
  }

  /** The snapshot holds exactly the keys of the input, each stored under
      its own key, with the last deployment of each key winning. */
  lemma SnapshotContents(ds: seq<Deployment>)
    ensures SnapshotMap(ds).Keys == set d | d in ds :: KeyOf(d)
    ensures KeysConsistent(SnapshotMap(ds))
    ensures forall k :: k in SnapshotMap(ds) ==>
      exists i :: 0 <= i < |ds| && ds[i] == SnapshotMap(ds)[k] &&
        forall j :: i < j < |ds| ==> KeyOf(ds[j]) != k
  {
    SnapshotKeys(ds);
    SnapshotLastWins(ds);
  }

  /** A snapshot is the same as replaying one ADDED delta per deployment. */
  lemma {:induction false} SnapshotIsReplayOfAdds(ds: seq<Deployment>)
    ensures SnapshotMap(ds) == ApplyUpdates(map[], seq(|ds|, i requires 0 <= i < |ds| => DeploymentUpdate(Added, ds[i])))
  {
    var us := seq(|ds|, i requires 0 <= i < |ds| => DeploymentUpdate(Added, ds[i]));
    if ds != [] {
      var init := ds[..|ds| - 1];
      SnapshotIsReplayOfAdds(init);
      assert us[..|us| - 1] == seq(|init|, i requires 0 <= i < |init| => DeploymentUpdate(Added, init[i]));
    }
  }

  ghost predicate DistinctKeys(ds: seq<Deployment>) {
    forall i, j :: 0 <= i < j < |ds| ==> KeyOf(ds[i]) != KeyOf(ds[j])
  }

  lemma SnapshotValueAt(ds: seq<Deployment>, i: nat)
    requires DistinctKeys(ds) && i < |ds|
    ensures KeyOf(ds[i]) in SnapshotMap(ds) && SnapshotMap(ds)[KeyOf(ds[i])] == ds[i]
  {
    SnapshotContents(ds);
    var k := KeyOf(ds[i]);
    assert ds[i] in ds;
    var i' :| 0 <= i' < |ds| && ds[i'] == SnapshotMap(ds)[k] && forall j :: i' < j < |ds| ==> KeyOf(ds[j]) != k;
    assert KeyOf(ds[i']) == k;
  }

  lemma SnapshotEntryKept(ds: seq<Deployment>, es: seq<Deployment>, k: string)
    requires multiset(ds) == multiset(es) && DistinctKeys(es)
    requires k in SnapshotMap(ds)
    ensures k in SnapshotMap(es) && SnapshotMap(es)[k] == SnapshotMap(ds)[k]
  {
    SnapshotContents(ds);
    var i :| 0 <= i < |ds| && ds[i] == SnapshotMap(ds)[k] && forall j :: i < j < |ds| ==> KeyOf(ds[j]) != k;
    assert ds[i] in multiset(ds);
    assert ds[i] in es;
    var j :| 0 <= j < |es| && es[j] == ds[i];
    SnapshotValueAt(es, j);
  }

  /** With distinct keys the input order does not matter, which is why the
      sort that precedes renderDeployments does not affect the map. */
  lemma SnapshotOrderIrrelevant(ds: seq<Deployment>, es: seq<Deployment>)
    requires multiset(ds) == multiset(es)
    requires DistinctKeys(ds) && DistinctKeys(es)
    ensures SnapshotMap(ds) == SnapshotMap(es)
  {
    var a, b := SnapshotMap(ds), SnapshotMap(es);
    forall k | k in a ensures k in b && b[k] == a[k] {
      SnapshotEntryKept(ds, es, k);
    }
    forall k | k in b ensures k in a {
      SnapshotEntryKept(es, ds, k);
    }
  }

  /** With distinct keys the map has one entry per deployment. */
  lemma {:induction false} SnapshotSize(ds: seq<Deployment>)
    requires DistinctKeys(ds)
    ensures |SnapshotMap(ds)| == |ds|
  {
    if ds != [] {
      var init := ds[..|ds| - 1];
      assert DistinctKeys(init);
      SnapshotSize(init);
      SnapshotContents(init);
      assert KeyOf(ds[|ds| - 1]) !in SnapshotMap(init);
    }
  }

  // ---------------------------------------------------------------------
  // Reconnect backoff

  function Min(a: nat, b: nat): nat {
    if a <= b then a else b
  }

  /** The attempt counter after one handleReconnect and the delay it
      schedules a reconnect after, or None once the attempts are used up. */
  datatype ReconnectOutcome = ReconnectOutcome(attempts: nat, delay: Option<nat>)

  function ReconnectStep(attempts: nat): (o: ReconnectOutcome)
    ensures o.delay.Some? <==> attempts < MaxReconnectAttempts
    ensures o.delay.Some? ==> o.attempts == attempts + 1 && o.delay.value == ReconnectDelay * Min(o.attempts, BackoffCap)
    ensures o.delay.None? ==> o.attempts == attempts
  {
    if attempts < MaxReconnectAttempts then
      ReconnectOutcome(attempts + 1, Some(ReconnectDelay * Min(attempts + 1, BackoffCap)))
    else ReconnectOutcome(attempts, None)
  }

  /** A step keeps the counter within the cap; a scheduled delay lies between
      one and five times the base delay; at the cap nothing is scheduled. */
  lemma ReconnectStepBounds(attempts: nat)
    requires attempts <= MaxReconnectAttempts
    ensures ReconnectStep(attempts).attempts <= MaxReconnectAttempts
    ensures ReconnectStep(attempts).delay.Some? <==> attempts < MaxReconnectAttempts
    ensures ReconnectStep(attempts).delay.Some? ==>
      ReconnectStep(attempts).attempts == attempts + 1 &&
      ReconnectDelay <= ReconnectStep(attempts).delay.value <= BackoffCap * ReconnectDelay
    ensures attempts == MaxReconnectAttempts ==> ReconnectStep(attempts) == ReconnectOutcome(attempts, None)
  {
  }

  /** n consecutive failures starting from a counter: the delays scheduled
      (None where nothing was) and the final counter. */
  function Failures(attempts: nat, n: nat): (ReconnectOutcome, seq<Option<nat>>)
    decreases n
  {
    if n == 0 then (ReconnectOutcome(attempts, None), [])
    else
      var step := ReconnectStep(attempts);
      var rest := Failures(step.attempts, n - 1);
      (rest.0, [step.delay] + rest.1)
  }

  /** From a counter a <= 10, the k-th consecutive failure schedules
      3000 * min(a + k + 1, 5) ms while the cap is not reached, and nothing after. */
  lemma {:induction false} FailuresSchedule(a: nat, n: nat)
    requires a <= MaxReconnectAttempts
    ensures |Failures(a, n).1| == n
    ensures Failures(a, n).0.attempts == Min(a + n, MaxReconnectAttempts)
    ensures forall k :: 0 <= k < n ==> (Failures(a, n).1[k] ==
      if a + k < MaxReconnectAttempts then Some(ReconnectDelay * Min(a + k + 1, BackoffCap)) else None)
    decreases n
  {
    if n > 0 {
      var step := ReconnectStep(a);
      FailuresSchedule(step.attempts, n - 1);
      var rest := Failures(step.attempts, n - 1);
      forall k | 0 <= k < n
        ensures Failures(a, n).1[k] ==
          if a + k < MaxReconnectAttempts then Some(ReconnectDelay * Min(a + k + 1, BackoffCap)) else None
      {
        if k > 0 {
          assert Failures(a, n).1[k] == rest.1[k - 1];
        }
      }
    }
  }

  /** After a successful open the delays run 3000, 6000, 9000, 12000, 15000,
      then 15000 up to the tenth failure, and nothing after that. */
  lemma BackoffFromOpen()
    ensures Failures(0, 12).1 == [Some(3000), Some(6000), Some(9000), Some(12000), Some(15000),
                                 Some(15000), Some(15000), Some(15000), Some(15000), Some(15000),
                                 None, None]
    ensures Failures(0, 12).0.attempts == MaxReconnectAttempts
  {
    FailuresSchedule(0, 12);
  }

  // ---------------------------------------------------------------------
  // The initial_data event

  /** The `initial_data` payload: `status`, `data` and an optional `message`. */
  datatype InitialData = InitialData(status: string, data: seq<Deployment>, message: Option<string>)

  const LoadFailedMessage: string := "Failed to load deployments"

  /** `response.message || 'Failed to load deployments'` */
  function InitialDataError(response: InitialData): (msg: string)
    ensures response.message.Some? && response.message.value != "" ==> msg == response.message.value
    ensures response.message.None? || response.message.value == "" ==> msg == LoadFailedMessage
    ensures msg != ""
  {
    match response.message
    case Some(m) => if m != "" then m else LoadFailedMessage
    case None => LoadFailedMessage
  }

  // ---------------------------------------------------------------------
  // The toggle request

  /** What toggleDeployment does: report an unknown deployment, or post a
      scale request. */
  datatype ToggleRequest = NotFound | ScaleRequest(namespace: string, name: string, scale: int)

  function Toggle(m: map<string, Deployment>, namespace: string, name: string, turnOn: bool): (r: ToggleRequest)
    ensures r.NotFound? <==> Key(namespace, name) !in m
    ensures r.ScaleRequest? ==> (r.namespace == namespace && r.name == name
      && r.scale == (if turnOn then m[Key(namespace, name)].replicasOn else m[Key(namespace, name)].replicasOff))
  {
    var key := Key(namespace, name);
    if key !in m then NotFound
    else ScaleRequest(namespace, name, ToggleScale(m[key], turnOn))
  }

  /** The button of a stored deployment's card requests the scale the card
      announces, addressed to that deployment. */
  lemma CardButtonToggles(m: map<string, Deployment>, k: string)
    requires KeysConsistent(m) && k in m
    ensures var d := m[k];
      Toggle(m, d.namespace, d.name, ViewOf(d).turnOn) == ScaleRequest(d.namespace, d.name, ViewOf(d).willScaleTo)
  {
  }
}
