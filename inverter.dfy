/**
 * The inverter route: `POST /data` flattens a gateway payload into a
 * telemetry record, caches it as the latest value, appends it to the
 * dashboard history and broadcasts it to every open WebSocket client;
 * `GET /latest` returns the cached record.
 */
module Inverter {
  import opened Wrappers
  import opened Telemetry
  import Dashboard

  const DefaultSite: string := "site-001"
  const InverterDataKind: string := "inverter_data"

  /** The metric fields as the device names them; any may be absent. */
  datatype Metrics = Metrics(
    gridVoltage: Option<int>,
    gridFreq: Option<int>,
    acOutVoltage: Option<int>,
    acOutFreq: Option<int>,
    acOutVa: Option<int>,
    acOutWatt: Option<int>,
    loadPercent: Option<int>,
    battCapacityPercent: Option<int>,
    battVoltage: Option<int>,
    heatsinkTemp: Option<int>,
    battChargeCurrent: Option<int>,
    battDischargeCurrent: Option<int>,
    busVoltage: Option<int>,
    pvInputVoltage: Option<int>,
    pvInputCurrent: Option<int>,
    deviceStatusBits: Option<int>
  )

  /**
   * A request body: an optional nested `metrics` object, the top-level
   * `site_id`, `type` and `ts_ms`, and `top`, the metric-named fields found
   * directly on the body (read when there is no `metrics` object).
   */
  datatype Payload = Payload(
    metrics: Option<Metrics>,
    siteId: Option<string>,
    kind: Option<string>,
    tsMs: Option<int>,
    top: Metrics
  )

  /** JavaScript truthiness of an optional number: present and not 0. */
  predicate Truthy(x: Option<int>) {
    x.Some? && x.value != 0
  }

  /** `data.metrics || data`. */
  function MetricSource(data: Payload): Metrics {
    match data.metrics
    case Some(m) => m
    case None => data.top
  }

  /** `data.site_id || "site-001"`: an absent or empty id falls back to the default. */
  function SiteOf(data: Payload): (site: string)
    ensures site != ""
    ensures data.siteId.Some? && data.siteId.value != "" ==> site == data.siteId.value
    ensures data.siteId.None? || data.siteId.value == "" ==> site == DefaultSite
  {
    if data.siteId.Some? && data.siteId.value != "" then data.siteId.value else DefaultSite
  }

  /** `pv_power`: voltage times current when both are truthy, otherwise 0 (never null). */
  function PvPower(m: Metrics): (w: int)
    ensures w == 0 <==> !Truthy(m.pvInputVoltage) || !Truthy(m.pvInputCurrent)
    ensures w != 0 ==> w == m.pvInputVoltage.value * m.pvInputCurrent.value
  {
    if Truthy(m.pvInputVoltage) && Truthy(m.pvInputCurrent) then
      m.pvInputVoltage.value * m.pvInputCurrent.value
    else
      0
  }

  /** The `parsed` object: the device fields renamed into the flat record, stamped with the server clock `now`. */
  function Parse(data: Payload, now: int): (r: TelemetryRecord)
    ensures r.timestamp == now && r.site == SiteOf(data)
    ensures r.kind == data.kind && r.tsMs == data.tsMs
    ensures var m := MetricSource(data);
      && r.gridVoltage == m.gridVoltage && r.gridFreq == m.gridFreq
      && r.acOutVoltage == m.acOutVoltage && r.acOutFreq == m.acOutFreq
      && r.acOutVa == m.acOutVa && r.acOutWatt == m.acOutWatt
      && r.loadPercent == m.loadPercent && r.busVoltage == m.busVoltage
      && r.soc == m.battCapacityPercent
      && r.batteryVoltage == m.battVoltage
      && r.batteryTemp == m.heatsinkTemp
      && r.chargeCurrent == m.battChargeCurrent
      && r.dischargeCurrent == m.battDischargeCurrent
      && r.deviceStatus == m.deviceStatusBits
      && r.pvVoltage == m.pvInputVoltage && r.pvCurrent == m.pvInputCurrent
    ensures r.pvPower == 0 <==> !Truthy(r.pvVoltage) || !Truthy(r.pvCurrent)
    ensures r.pvPower != 0 ==> r.pvPower == r.pvVoltage.value * r.pvCurrent.value
  {
    var m := MetricSource(data);
    TelemetryRecord(
      timestamp := now,
      site := SiteOf(data),
      kind := data.kind,
      tsMs := data.tsMs,
      gridVoltage := m.gridVoltage,
      gridFreq := m.gridFreq,
      acOutVoltage := m.acOutVoltage,
      acOutFreq := m.acOutFreq,
      acOutVa := m.acOutVa,
      acOutWatt := m.acOutWatt,
      loadPercent := m.loadPercent,
      soc := m.battCapacityPercent,
      batteryVoltage := m.battVoltage,
      batteryTemp := m.heatsinkTemp,
      chargeCurrent := m.battChargeCurrent,
      dischargeCurrent := m.battDischargeCurrent,
      busVoltage := m.busVoltage,
      pvVoltage := m.pvInputVoltage,
      pvCurrent := m.pvInputCurrent,
      pvPower := PvPower(m),
      deviceStatus := m.deviceStatusBits)
  }

  /** With a `metrics` object present, the metric-named fields on the body itself are ignored. */
  lemma MetricsShadowTopLevel(data: Payload, other: Metrics, now: int)
    requires data.metrics.Some?
    ensures Parse(data.(top := other), now) == Parse(data, now)
  {
  }

  /** Without a `metrics` object the body itself is the metric source, exactly as if it had been nested. */
  lemma BodyIsMetricSourceWithoutMetrics(data: Payload, now: int)
    requires data.metrics.None?
    ensures Parse(data, now) == Parse(data.(metrics := Some(data.top)), now)
  {
  }

  // ---------------------------------------------------------------------
  // WebSocket broadcast

  /** A client's `readyState`; 1 is OPEN. */
  type ReadyState = int
  const Open: ReadyState := 1

  /** The message sent to clients, serialised once: `{type: 'inverter_data', data: parsed}`. */
  datatype WsMessage = WsMessage(kind: string, data: TelemetryRecord)

  /** One `client.send`: the client's position in `wss.clients` and the message. */
  datatype Delivery = Delivery(client: nat, message: WsMessage)

  /** The positions of the open clients, in iteration order. */
  function OpenClients(clients: seq<ReadyState>): (ix: seq<nat>)
    ensures forall j :: 0 <= j < |ix| ==> ix[j] < |clients| && clients[ix[j]] == Open
    ensures forall i :: 0 <= i < |clients| && clients[i] == Open ==> i in ix
    ensures forall j, k :: 0 <= j < k < |ix| ==> ix[j] < ix[k]
  {
    if clients == [] then []
    else
      var n := |clients| - 1;
      var front := OpenClients(clients[..n]);
      assert forall i :: 0 <= i < n ==> clients[..n][i] == clients[i];
      front + (if clients[n] == Open then [n] else [])
  }

  /**
   * The `forEach` over `wss.clients`: send `message` to each client whose
   * `readyState` is 1 and count the sends in `wsClients`.
   */
  method Broadcast(clients: seq<ReadyState>, message: WsMessage) returns (sent: seq<Delivery>, wsClients: nat)
    ensures wsClients == |sent| == |OpenClients(clients)|
    ensures forall j :: 0 <= j < |sent| ==> sent[j] == Delivery(OpenClients(clients)[j], message)
  {
    sent, wsClients := [], 0;
    var i := 0;
    while i < |clients|
      invariant 0 <= i <= |clients|
      invariant wsClients == |sent| == |OpenClients(clients[..i])|
      invariant forall j :: 0 <= j < |sent| ==> sent[j] == Delivery(OpenClients(clients[..i])[j], message)
    {
      assert clients[..i + 1][..i] == clients[..i];
      if clients[i] == Open {
        sent := sent + [Delivery(i, message)];
        wsClients := wsClients + 1;
      }
      i := i + 1;
    }
    assert clients[..i] == clients;
  }

  /** Each open client receives the message exactly once; no other client receives anything. */
  lemma BroadcastReachesEachOpenClientOnce(clients: seq<ReadyState>, i: nat)
    requires i < |clients|
    ensures clients[i] == Open ==> |set j | 0 <= j < |OpenClients(clients)| && OpenClients(clients)[j] == i| == 1
    ensures clients[i] != Open ==> i !in OpenClients(clients)
  {
    var ix := OpenClients(clients);
    if clients[i] == Open {
      var j0 :| 0 <= j0 < |ix| && ix[j0] == i;
      assert (set j | 0 <= j < |ix| && ix[j] == i) == {j0};
    }
  }

  // ---------------------------------------------------------------------
  // The route's state

  datatype LatestReply = NoInverterData | Cached(data: TelemetryRecord)

  /** `GET /latest`: the "no inverter data" message until a record is cached. */
  function LatestHandler(latest: Option<TelemetryRecord>): (r: LatestReply)
    ensures r.NoInverterData? <==> latest.None?
    ensures r.Cached? ==> latest == Some(r.data)
  {
    match latest
    case None => NoInverterData
    case Some(d) => Cached(d)
  }

  /** The module-level `latestInverterData` cache, beside the dashboard history the route appends to. */
  class InverterRoute {
    var latest: Option<TelemetryRecord>
    const history: Dashboard.History

    constructor (history: Dashboard.History)
      ensures this.history == history && latest.None?
    {
      this.history := history;
      latest := None;
    }

    /**
     * `POST /data` with the server clock `now` and the `readyState` of each
     * connected client: cache and append the parsed record, then broadcast
     * it once to every open client. The reply is always `{status: "ok"}`.
     */
    method PostData(data: Payload, now: int, clients: seq<ReadyState>) returns (sent: seq<Delivery>, wsClients: nat)
      requires history.Valid()
      modifies this, history
      ensures history.Valid()
      ensures latest == Some(Parse(data, now))
      ensures history.arrivals == old(history.arrivals) + [Parse(data, now)]
      ensures Dashboard.GetLatestData(history.entries) == Some(Dashboard.Entry(latest.value, |old(history.entries)| + 1))
      ensures wsClients == |sent| == |OpenClients(clients)|
      ensures forall j :: 0 <= j < |sent| ==>
        sent[j] == Delivery(OpenClients(clients)[j], WsMessage(InverterDataKind, latest.value))
    {
      var parsed := Parse(data, now);
      latest := Some(parsed);
      history.AddToHistory(parsed);
      var message := WsMessage(InverterDataKind, parsed);
      sent, wsClients := Broadcast(clients, message);
    }
  }
}
