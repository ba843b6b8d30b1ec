/**
 * The EMS route: `POST /` checks that `ts`, `site`, `dc` and `pv` are
 * present and truthy, builds a summary record and stores it as the latest
 * EMS value. `mode` is read but never checked: a payload without it fails
 * while the summary is being built, after validation.
 */
module Ems {
  import opened Wrappers

  const BadRequest: int := 400
  const Ok: int := 200
  const ServerError: int := 500

  datatype SiteInfo = SiteInfo(id: Option<string>)
  datatype DcInfo = DcInfo(socPct: Option<int>, tempC: Option<int>)
  datatype PvInfo = PvInfo(pvW: Option<int>)
  datatype ModeInfo = ModeInfo(name: Option<string>)

  /** An EMS request body; an object field that is absent or null is `None`, and `ts` is falsy when absent or 0. */
  datatype EmsPayload = EmsPayload(
    ts: Option<int>,
    site: Option<SiteInfo>,
    dc: Option<DcInfo>,
    pv: Option<PvInfo>,
    mode: Option<ModeInfo>
  )

  /** The `latestEMSData` summary. */
  datatype EmsSummary = EmsSummary(
    timestamp: int,
    site: Option<string>,
    soc: Option<int>,
    pvPower: Option<int>,
    temp: Option<int>,
    mode: Option<string>
  )

  /** Why a payload produced no summary: the 400 check failed, or reading `data.mode.name` threw (500). */
  datatype Fault = InvalidFormat | ModeUnreadable

  /** Some required field (`ts`, `site`, `dc`, `pv`) is missing or falsy. */
  predicate MissingRequired(data: EmsPayload) {
    || data.ts.None? || data.ts.value == 0
    || data.site.None?
    || data.dc.None?
    || data.pv.None?
  }

  /**
   * Validation followed by the summary's object literal. A payload missing
   * any required field is rejected; one that passes but has no `mode` fails
   * on `data.mode.name`.
   */
  function Summarize(data: EmsPayload): (r: Result<EmsSummary, Fault>)
    ensures r == Failure(InvalidFormat) <==> MissingRequired(data)
    ensures r == Failure(ModeUnreadable) <==> !MissingRequired(data) && data.mode.None?
    ensures r.Success? ==>
      && data.ts.Some? && r.value.timestamp == data.ts.value && r.value.timestamp != 0
      && data.site.Some? && r.value.site == data.site.value.id
      && data.dc.Some? && r.value.soc == data.dc.value.socPct && r.value.temp == data.dc.value.tempC
      && data.pv.Some? && r.value.pvPower == data.pv.value.pvW
      && data.mode.Some? && r.value.mode == data.mode.value.name
  {
    if data.ts.None? || data.ts.value == 0 || data.site.None? || data.dc.None? || data.pv.None? then
      Failure(InvalidFormat)
    else if data.mode.None? then
      Failure(ModeUnreadable)
    else
      Success(EmsSummary(
        timestamp := data.ts.value,
        site := data.site.value.id,
        soc := data.dc.value.socPct,
        pvPower := data.pv.value.pvW,
        temp := data.dc.value.tempC,
        mode := data.mode.value.name))
  }

  /** The module-level `latestEMSData`. */
  class EmsRoute {
    var latest: Option<EmsSummary>

    constructor ()
      ensures latest.None?
    {
      latest := None;
    }

    /**
     * `POST /`: 400 for a payload missing a required field, 500 when the
     * summary cannot be built, otherwise 200 with the summary stored. Only
     * the 200 outcome changes `latest`.
     */
    method Post(data: EmsPayload) returns (status: int)
      modifies this
      ensures status == BadRequest <==> MissingRequired(data)
      ensures status == ServerError <==> Summarize(data) == Failure(ModeUnreadable)
      ensures status == Ok <==> Summarize(data).Success?
      ensures status == Ok ==> latest == Some(Summarize(data).value)
      ensures status != Ok ==> latest == old(latest)
    {
      match Summarize(data)
      case Failure(InvalidFormat) =>
        status := BadRequest;
      case Failure(ModeUnreadable) =>
        status := ServerError;
      case Success(summary) =>
        latest := Some(summary);
        status := Ok;
    }
  }
}
