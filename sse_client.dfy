/** The state of the dashboard's KuyalaSSEClient (app/static/js/apps.js):
    whether an EventSource is open, whether it has reported `open`, the
    reconnect attempt counter and the deployments map.  The DOM, the
    EventSource object itself, timers and `fetch` are not modelled: the
    outcome of creating an EventSource is a parameter, a scheduled
    reconnect is the delay a handler returns, and a toggle is the request
    it would post. */
module SseClient {
  import opened Wrappers
  import opened Dashboard
  import Backend

  /** What getConnectionStatus returns. */
  datatype ConnectionStatus = ConnectionStatus(connected: bool, reconnectAttempts: nat, deploymentsCount: nat)

  const SuccessStatus: string := "success"

  class KuyalaSSEClient {
    /** Whether `this.eventSource` is non-null. */
    var eventSource: bool
    var reconnectAttempts: nat
    var isConnected: bool
    /** `this.deployments`, keyed by `namespace/name`. */
    var deployments: map<string, Deployment>

    /** Only an open source can have reported `open`; the counter never
        passes the cap; every deployment is stored under its own key. */
    ghost predicate Valid()
      reads this
    {
      && reconnectAttempts <= MaxReconnectAttempts
      && (isConnected ==> eventSource)
      && KeysConsistent(deployments)
    }

    constructor()
      ensures Valid()
      ensures !eventSource && !isConnected && reconnectAttempts == 0 && deployments == map[]
    {
      eventSource := false;
      reconnectAttempts := 0;
      isConnected := false;
      deployments := map[];
    }

    /** getConnectionStatus. */
    function GetConnectionStatus(): (s: ConnectionStatus)
      reads this
      ensures s.connected == isConnected
      ensures s.reconnectAttempts == reconnectAttempts
      ensures s.deploymentsCount == |deployments|
      ensures Valid() ==> s.reconnectAttempts <= MaxReconnectAttempts && (s.connected ==> eventSource)
    {
      ConnectionStatus(isConnected, reconnectAttempts, |deployments|)
    }

    /** disconnect: closes the source if there is one.  Afterwards there is
        no source and the client is not connected, whatever the state was
        before, so a second call changes nothing. */
    method Disconnect()
      requires Valid()
      modifies this
      ensures Valid()
      ensures !eventSource && !isConnected
      ensures reconnectAttempts == old(reconnectAttempts) && deployments == old(deployments)
      ensures !old(eventSource) ==> isConnected == old(isConnected)
    {
      if eventSource {
        eventSource := false;
        isConnected := false;
      }
    }

    /** handleReconnect: below the cap, count the attempt and schedule a
        reconnect after 3000 ms times the attempt number, at most five;
        at the cap, schedule nothing and leave the counter alone. */
    method HandleReconnect() returns (delay: Option<nat>)
      requires Valid()
      modifies this
      ensures Valid()
      ensures ReconnectOutcome(reconnectAttempts, delay) == ReconnectStep(old(reconnectAttempts))
      ensures old(reconnectAttempts) < MaxReconnectAttempts ==>
        reconnectAttempts == old(reconnectAttempts) + 1 &&
        delay == Some(ReconnectDelay * Min(reconnectAttempts, BackoffCap))
      ensures old(reconnectAttempts) == MaxReconnectAttempts ==>
        reconnectAttempts == MaxReconnectAttempts && delay.None?
      ensures eventSource == old(eventSource) && isConnected == old(isConnected)
      ensures deployments == old(deployments)
    {
      if reconnectAttempts < MaxReconnectAttempts {
        reconnectAttempts := reconnectAttempts + 1;
        delay := Some(ReconnectDelay * Min(reconnectAttempts, BackoffCap));
      } else {
        delay := None;
      }
    }

    /** connect: drop any previous source, then create one.  `created` says
        whether `new EventSource` succeeded; when it threw, a reconnect is
        attempted and its delay returned. */
    method Connect(created: bool) returns (delay: Option<nat>)
      requires Valid()
      modifies this
      ensures Valid()
      ensures !isConnected && eventSource == created
      ensures created ==> delay.None? && reconnectAttempts == old(reconnectAttempts)
      ensures !created ==> ReconnectOutcome(reconnectAttempts, delay) == ReconnectStep(old(reconnectAttempts))
      ensures deployments == old(deployments)
    {
      if eventSource {
        Disconnect();
      }
      if created {
        eventSource := true;
        delay := None;
      } else {
        delay := HandleReconnect();
      }
    }

    /** The `open` listener: the source reports that it is connected. */
    method OnOpen()
      requires Valid() && eventSource
      modifies this
      ensures Valid()
      ensures isConnected && reconnectAttempts == 0 && eventSource
      ensures deployments == old(deployments)
      ensures GetConnectionStatus() == ConnectionStatus(true, 0, |old(deployments)|)
    {
      isConnected := true;
      reconnectAttempts := 0;
    }

    /** The `error` listener: mark the client disconnected and try again. */
    method OnError() returns (delay: Option<nat>)
      requires Valid()
      modifies this
      ensures Valid()
      ensures !isConnected && eventSource == old(eventSource)
      ensures ReconnectOutcome(reconnectAttempts, delay) == ReconnectStep(old(reconnectAttempts))
      ensures deployments == old(deployments)
    {
      isConnected := false;
      delay := HandleReconnect();
    }

    /** handleDeploymentUpdate on the map; the card patching is not modelled. */
    method HandleDeploymentUpdate(update: DeploymentUpdate)
      requires Valid()
      modifies this
      ensures Valid()
      ensures deployments == ApplyUpdate(old(deployments), update)
      ensures eventSource == old(eventSource) && isConnected == old(isConnected)
      ensures reconnectAttempts == old(reconnectAttempts)
    {
      var key := Key(update.deployment.namespace, update.deployment.name);
      if update.kind == Added || update.kind == Modified {
        deployments := deployments[key := update.deployment];
      } else if update.kind == Deleted {
        deployments := deployments - {key};
      }
      ApplyUpdateKeepsKeys(old(deployments), update);
    }

    /** renderDeployments on the map: clear it, then store each deployment
        in input order.  `input` is None for a null or undefined argument;
        the result says whether the empty-state card is shown. */
    method RenderDeployments(input: Option<seq<Deployment>>) returns (emptyState: bool)
      requires Valid()
      modifies this
      ensures Valid()
      ensures deployments == SnapshotMap(input.GetOr([]))
      ensures emptyState <==> (input.None? || |input.value| == 0)
      ensures emptyState ==> deployments == map[]
      ensures eventSource == old(eventSource) && isConnected == old(isConnected)
      ensures reconnectAttempts == old(reconnectAttempts)
    {
      deployments := map[];
      if input.None? || |input.value| == 0 {
        emptyState := true;
        return;
      }
      emptyState := false;
      var ds := input.value;
      var i := 0;
      while i < |ds|
        invariant 0 <= i <= |ds|
        invariant deployments == SnapshotMap(ds[..i])
        invariant eventSource == old(eventSource) && isConnected == old(isConnected)
        invariant reconnectAttempts == old(reconnectAttempts)
      {
        var dep := ds[i];
        deployments := deployments[Key(dep.namespace, dep.name) := dep];
        assert ds[..i + 1][..i] == ds[..i];
        i := i + 1;
      }
      assert ds[..i] == ds;
      SnapshotContents(ds);
    }

    /** The `initial_data` listener.  On success the data, put in display
        order by the caller (`ordered` is a permutation of it), replaces the
        map; otherwise the error message to show is returned and the map is
        kept. */
    method OnInitialData(response: InitialData, ordered: seq<Deployment>) returns (error: Option<string>)
      requires Valid()
      requires multiset(ordered) == multiset(response.data)
      modifies this
      ensures Valid()
      ensures response.status == SuccessStatus ==> error.None? && deployments == SnapshotMap(ordered)
      ensures response.status != SuccessStatus ==>
        error == Some(InitialDataError(response)) && deployments == old(deployments)
      ensures eventSource == old(eventSource) && isConnected == old(isConnected)
      ensures reconnectAttempts == old(reconnectAttempts)
    {
      if response.status == SuccessStatus {
        var _ := RenderDeployments(Some(ordered));
        error := None;
      } else {
        error := Some(InitialDataError(response));
      }
    }

    /** The decision part of toggleDeployment, as the map-level Toggle
        states it: an unknown deployment is reported and nothing is sent;
        otherwise the request names the deployment and carries replicasOn
        when turning on, replicasOff when turning off. */
    method ToggleDeployment(namespace: string, name: string, turnOn: bool) returns (r: ToggleRequest)
      ensures r == Toggle(deployments, namespace, name, turnOn)
    {
      r := Toggle(deployments, namespace, name, turnOn);
    }
  }

  /** The body toggleDeployment posts to /action: namespace, name and the
      scale as a JSON number. */
  function ActionBody(r: ToggleRequest): (body: Backend.ActionRequest)
    requires r.ScaleRequest?
    ensures body.namespace == Some(Backend.JString(r.namespace)) && body.name == Some(Backend.JString(r.name))
    ensures body.scale == Some(Backend.JInt(r.scale))
  {
    Backend.ActionRequest(Some(Backend.JString(r.namespace)), Some(Backend.JString(r.name)),
      Some(Backend.JInt(r.scale)))
  }

  /** A toggle that finds its deployment asks the backend to patch that same
      deployment to the scale the card announced, and a successful patch
      reports exactly that scale. */
  lemma ToggleReachesBackend(m: map<string, Deployment>, k: string)
    requires KeysConsistent(m) && k in m
    ensures var d := m[k];
      var r := Toggle(m, d.namespace, d.name, ViewOf(d).turnOn);
      && r.ScaleRequest?
      && Backend.PatchRequest(ActionBody(r)) ==
        Some(Backend.ScalePatch(Some(Backend.JString(d.name)), Some(Backend.JString(d.namespace)), ViewOf(d).willScaleTo))
      && Backend.Action(ActionBody(r), Backend.Patched) == Backend.Returned(Some(ViewOf(d).willScaleTo))
  {
    var d := m[k];
    CardButtonToggles(m, k);
    var r := Toggle(m, d.namespace, d.name, ViewOf(d).turnOn);
    Backend.ActionScaleRoundTrip(ActionBody(r), r.scale);
  }
}
