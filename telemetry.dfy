/**
 * The flat telemetry record that the inverter route builds from a device
 * payload and appends to the dashboard history. Numeric readings are
 * integers; a reading the device did not send is `None` (JavaScript
 * `undefined`).
 */
module Telemetry {
  import opened Wrappers

  datatype TelemetryRecord = TelemetryRecord(
    timestamp: int,              // ingestion time, milliseconds; the server clock at receipt
    site: string,
    kind: Option<string>,        // the payload's `type`, e.g. "QPIGS"
    tsMs: Option<int>,           // the device's own `ts_ms`
    gridVoltage: Option<int>,
    gridFreq: Option<int>,
    acOutVoltage: Option<int>,
    acOutFreq: Option<int>,
    acOutVa: Option<int>,
    acOutWatt: Option<int>,
    loadPercent: Option<int>,
    soc: Option<int>,
    batteryVoltage: Option<int>,
    batteryTemp: Option<int>,
    chargeCurrent: Option<int>,
    dischargeCurrent: Option<int>,
    busVoltage: Option<int>,
    pvVoltage: Option<int>,
    pvCurrent: Option<int>,
    pvPower: int,                // always a number: 0 when it cannot be derived
    deviceStatus: Option<int>
  )
}
