/**
 * The dashboard route: a bounded in-memory history of telemetry records
 * (`dataHistory`, at most `MAX_HISTORY` entries), the function that appends
 * to it, and the read-only queries behind `/latest`, `/recent`, `/history`
 * and `/stats` with their helpers `average`, `max` and `min`.
 */
module Dashboard {
  import opened Wrappers
  import opened Telemetry
  import Js = JsSemantics

  const MaxHistory: nat := 1000
  const DefaultRecentLimit: int := 50
  const DefaultHistoryLimit: int := 1000
  const DefaultStatsLimit: int := 100

  /** A history entry: the appended record spread into a new object plus the stamped `id`. */
  datatype Entry = Entry(data: TelemetryRecord, id: int)

  /** The id stamped on the `k`-th appended record (counting from 0): the buffer length before the push, plus one. */
  function IdFor(k: nat): int {
    if k < MaxHistory then k + 1 else MaxHistory + 1
  }

  /**
   * What the buffer holds after the records `arrivals` were appended, in
   * order, to an empty buffer: the last `min(n, MaxHistory)` of them, oldest
   * first, each with the id it was stamped with when it arrived.
   */
  function Retained(arrivals: seq<TelemetryRecord>): (r: seq<Entry>)
    ensures |r| == Js.Min(|arrivals|, MaxHistory)
  {
    var n := |arrivals|;
    var m := Js.Min(n, MaxHistory);
    seq(m, i requires 0 <= i < m => Entry(arrivals[n - m + i], IdFor(n - m + i)))
  }

  /** The records of a sequence of entries, ids dropped. */
  function Records(h: seq<Entry>): (r: seq<TelemetryRecord>)
    ensures |r| == |h|
  {
    seq(|h|, i requires 0 <= i < |h| => h[i].data)
  }

  /** One append as the buffer sees it: push with id `length + 1`, then drop the oldest entry when over capacity. */
  lemma AppendRetained(arrivals: seq<TelemetryRecord>, x: TelemetryRecord)
    ensures var old_ := Retained(arrivals);
      Retained(arrivals + [x]) ==
        (if |old_| < MaxHistory then old_ else old_[1..]) + [Entry(x, |old_| + 1)]
  {
    var old_ := Retained(arrivals);
    var a' := arrivals + [x];
    var new_ := Retained(a');
    var expected := (if |old_| < MaxHistory then old_ else old_[1..]) + [Entry(x, |old_| + 1)];
    assert |new_| == |expected|;
    var n := |arrivals|;
    forall i | 0 <= i < |new_|
      ensures new_[i] == expected[i]
    {
      if i < |new_| - 1 {
        if n < MaxHistory {
          assert new_[i] == Entry(a'[i], IdFor(i)) && a'[i] == arrivals[i];
          assert expected[i] == old_[i] == Entry(arrivals[i], IdFor(i));
        } else {
          var k := n + 1 - MaxHistory + i;
          assert new_[i] == Entry(a'[k], IdFor(k)) && a'[k] == arrivals[k];
          assert expected[i] == old_[i + 1] == Entry(arrivals[k], IdFor(k));
        }
      } else {
        assert new_[i] == Entry(a'[n], IdFor(n)) && a'[n] == x;
      }
    }
  }

  /** The buffer holds the newest records in arrival order: the data of the entries is the tail of the arrivals. */
  lemma RetainedIsNewestArrivals(arrivals: seq<TelemetryRecord>)
    ensures var r := Retained(arrivals);
      Records(r) == arrivals[|arrivals| - |r|..]
  {
  }

  /** Until the buffer first fills, the ids are 1, 2, 3, ... in buffer order. */
  lemma IdsCountUpUntilFull(arrivals: seq<TelemetryRecord>)
    requires |arrivals| <= MaxHistory
    ensures forall i :: 0 <= i < |Retained(arrivals)| ==> Retained(arrivals)[i].id == i + 1
  {
    var r := Retained(arrivals);
    forall i | 0 <= i < |r| ensures r[i].id == i + 1 {
      assert r[i] == Entry(arrivals[i], IdFor(i));
    }
  }

  /** Once the buffer is full, every new entry is stamped `MaxHistory + 1`, so the newest two ids collide. */
  lemma IdsCollideOnceFull(arrivals: seq<TelemetryRecord>, x: TelemetryRecord)
    requires |arrivals| >= MaxHistory
    ensures var r := Retained(arrivals + [x]);
      r[|r| - 1] == Entry(x, MaxHistory + 1) &&
      (|arrivals| > MaxHistory ==> r[|r| - 2].id == MaxHistory + 1)
  {
    AppendRetained(arrivals, x);
    var old_ := Retained(arrivals);
    var n := |arrivals|;
    if n > MaxHistory {
      assert old_[MaxHistory - 1] == Entry(arrivals[n - 1], IdFor(n - 1));
    }
  }

  /**
   * `dataHistory`: the module-level array. `arrivals` is the model's record
   * of every call to `addToHistory`, oldest first.
   */
  class History {
    var entries: seq<Entry>
    ghost var arrivals: seq<TelemetryRecord>

    ghost predicate Valid()
      reads this
    {
      entries == Retained(arrivals)
    }

    constructor ()
      ensures Valid() && arrivals == [] && entries == []
    {
      entries := [];
      arrivals := [];
    }

    /** `addToHistory`: push the record with `id = length + 1`, then `shift` the oldest entry if the length exceeds `MaxHistory`. */
    method AddToHistory(data: TelemetryRecord)
      requires Valid()
      modifies this
      ensures Valid() && arrivals == old(arrivals) + [data]
      ensures |entries| <= MaxHistory
      ensures entries ==
        (if |old(entries)| < MaxHistory then old(entries) else old(entries)[1..]) + [Entry(data, |old(entries)| + 1)]
    {
      entries := entries + [Entry(data, |entries| + 1)];
      if |entries| > MaxHistory {
        entries := entries[1..];
      }
      AppendRetained(arrivals, data);
      arrivals := arrivals + [data];
    }
  }

  // ---------------------------------------------------------------------
  // GET /latest

  /** `getLatestData`: the newest entry, or nothing when the buffer is empty. */
  function GetLatestData(h: seq<Entry>): (r: Option<Entry>)
    ensures r.None? <==> h == []
    ensures r.Some? ==> r.value in h && r.value == h[|h| - 1]
  {
    if |h| > 0 then Some(h[|h| - 1]) else None
  }

  datatype LatestReply = NoDataYet | Latest(entry: Entry)

  /** The `/latest` handler: the "no data received yet" message or the newest entry. */
  function LatestHandler(h: seq<Entry>): (r: LatestReply)
    ensures r.NoDataYet? <==> h == []
    ensures r.Latest? ==> Some(r.entry) == GetLatestData(h)
  {
    match GetLatestData(h)
    case None => NoDataYet
    case Some(e) => Latest(e)
  }

  /** After an append the newest entry is the appended record. */
  lemma LatestAfterAppend(arrivals: seq<TelemetryRecord>, x: TelemetryRecord)
    ensures GetLatestData(Retained(arrivals + [x])) ==
      Some(Entry(x, Js.Min(|arrivals|, MaxHistory) + 1))
  {
    AppendRetained(arrivals, x);
  }

  // ---------------------------------------------------------------------
  // GET /recent and GET /history

  /** A `{count, data}` reply. */
  datatype Listing = Listing(count: nat, data: seq<Entry>)

  /**
   * The `/recent` handler: `count = min(limit, length)` and `data =
   * slice(-count)`. A positive limit gives the newest `min(limit, length)`
   * entries; a limit of 0 gives `slice(-0)`, the whole buffer; a negative
   * limit drops that many entries from the front.
   */
  function Recent(h: seq<Entry>, limit: Option<int>): (r: Listing)
    ensures r.count == |r.data| <= |h| && r.data == h[|h| - r.count..]
    ensures var k := limit.GetOr(DefaultRecentLimit);
      && (k >= 1 ==> r.count == Js.Min(k, |h|))
      && (k == 0 ==> r.data == h)
      && (k < 0 ==> r.count == |h| - Js.Min(-k, |h|))
  {
    var count := Js.Min(limit.GetOr(DefaultRecentLimit), |h|);
    var data := Js.SliceFrom(h, -count);
    Listing(|data|, data)
  }

  /** `/recent` on the live buffer returns the newest arrivals, oldest first. */
  lemma RecentIsNewestArrivals(arrivals: seq<TelemetryRecord>, k: int)
    requires k >= 1
    ensures var r := Recent(Retained(arrivals), Some(k));
      && r.count == Js.Min(k, Js.Min(|arrivals|, MaxHistory))
      && Records(r.data) == arrivals[|arrivals| - r.count..]
  {
  }

  datatype QueryError = MissingParameters

  predicate InRange(e: Entry, start: int, end: int) {
    start <= e.data.timestamp <= end
  }

  /** `filter` on the inclusive interval `[start, end]`. */
  function Between(h: seq<Entry>, start: int, end: int): (r: seq<Entry>)
    ensures |r| <= |h|
    ensures forall e :: e in r ==> e in h && InRange(e, start, end)
    ensures forall i :: 0 <= i < |h| && InRange(h[i], start, end) ==> h[i] in r
  {
    if h == [] then []
    else (if InRange(h[0], start, end) then [h[0]] else []) + Between(h[1..], start, end)
  }

  /** Filtering keeps buffer order: it distributes over concatenation. */
  lemma {:induction false} BetweenAppend(a: seq<Entry>, b: seq<Entry>, start: int, end: int)
    ensures Between(a + b, start, end) == Between(a, start, end) + Between(b, start, end)
  {
    if a == [] {
      assert a + b == b;
    } else {
      assert (a + b)[1..] == a[1..] + b;
      BetweenAppend(a[1..], b, start, end);
    }
  }

  /**
   * The `/history` handler: 400 when `start` or `end` is missing; otherwise
   * the entries whose timestamp lies in `[start, end]`, in buffer order, cut
   * by `slice(0, limit)` to the oldest `limit` of them.
   */
  function HistoryRange(h: seq<Entry>, start: Option<int>, end: Option<int>, limit: Option<int>)
    : (r: Result<Listing, QueryError>)
    ensures r.Failure? <==> start.None? || end.None?
    ensures r.Success? ==>
      var matches := Between(h, start.value, end.value);
      && r.value.count == |r.value.data| <= |matches|
      && r.value.data == matches[..r.value.count]
      && (limit.GetOr(DefaultHistoryLimit) >= 0 ==>
            r.value.count == Js.Min(limit.GetOr(DefaultHistoryLimit), |matches|))
      && (limit.GetOr(DefaultHistoryLimit) < 0 ==>
            r.value.count == |matches| - Js.Min(-limit.GetOr(DefaultHistoryLimit), |matches|))
  {
    if start.None? || end.None? then
      Failure(MissingParameters)
    else
      var filtered := Js.SliceTo(Between(h, start.value, end.value), limit.GetOr(DefaultHistoryLimit));
      Success(Listing(|filtered|, filtered))
  }

  // ---------------------------------------------------------------------
  // average / max / min and GET /stats

  /** The keys `/stats` reads from an entry. */
  datatype Key = Soc | Power | PvPower | BatteryVoltage | BatteryTemp

  /** `item[key]`. The record has no `power` property, so that key always reads `undefined`. */
  function Field(e: Entry, key: Key): Option<int> {
    match key
    case Soc => e.data.soc
    case Power => None
    case PvPower => Some(e.data.pvPower)
    case BatteryVoltage => e.data.batteryVoltage
    case BatteryTemp => e.data.batteryTemp
  }

  /** `arr.map(item => item[key]).filter(v => v != null)`: the values present, in order. */
  function Present(w: seq<Entry>, key: Key): (vs: seq<int>)
    ensures |vs| <= |w|
  {
    if w == [] then [] else ValueOf(w[0], key) + Present(w[1..], key)
  }

  /** The present values are exactly the values the window's entries hold for the key. */
  lemma {:induction false} PresentMembers(w: seq<Entry>, key: Key)
    ensures forall v :: v in Present(w, key) ==> exists i :: 0 <= i < |w| && Field(w[i], key) == Some(v)
    ensures forall i :: 0 <= i < |w| && Field(w[i], key).Some? ==> Field(w[i], key).value in Present(w, key)
  {
    if w != [] {
      var rest := Present(w[1..], key);
      PresentMembers(w[1..], key);
      assert Present(w, key) == ValueOf(w[0], key) + rest;
      forall v | v in Present(w, key) ensures exists i :: 0 <= i < |w| && Field(w[i], key) == Some(v) {
        if v !in rest {
          assert Field(w[0], key) == Some(v);
        } else {
          var j :| 0 <= j < |w[1..]| && Field(w[1..][j], key) == Some(v);
          assert Field(w[j + 1], key) == Some(v);
        }
      }
      forall i | 0 <= i < |w| && Field(w[i], key).Some? ensures Field(w[i], key).value in Present(w, key) {
        if i > 0 {
          assert w[i] == w[1..][i - 1];
        }
      }
    }
  }

  /** What one entry contributes to `Present`: its value if it has the key, nothing otherwise. */
  function ValueOf(e: Entry, key: Key): seq<int> {
    match Field(e, key)
    case Some(v) => [v]
    case None => []
  }

  /** A single entry contributes its value if it has the key, and nothing otherwise. */
  lemma PresentOfOne(e: Entry, key: Key)
    ensures Present([e], key) == (if Field(e, key).Some? then [Field(e, key).value] else [])
  {
    assert [e][1..] == [];
  }

  /** The values of a concatenation are the values of its parts, in order: each entry contributes once, in window order. */
  lemma {:induction false} PresentAppend(a: seq<Entry>, b: seq<Entry>, key: Key)
    ensures Present(a + b, key) == Present(a, key) + Present(b, key)
  {
    if a == [] {
      assert a + b == b;
    } else {
      var ab := a + b;
      assert ab[0] == a[0] && ab[1..] == a[1..] + b;
      PresentAppend(a[1..], b, key);
      var x, y, z := ValueOf(a[0], key), Present(a[1..], key), Present(b, key);
      calc {
        Present(ab, key);
        x + Present(a[1..] + b, key);
        x + (y + z);
        (x + y) + z;
        Present(a, key) + z;
      }
    }
  }

  function Sum(vs: seq<int>): int {
    if vs == [] then 0 else vs[0] + Sum(vs[1..])
  }

  /** `Math.max(...vs)` on a non-empty list. */
  function Largest(vs: seq<int>): (m: int)
    requires vs != []
    ensures m in vs && forall v :: v in vs ==> v <= m
  {
    if |vs| == 1 then vs[0]
    else
      var t := Largest(vs[1..]);
      assert forall v :: v in vs ==> v == vs[0] || v in vs[1..];
      if vs[0] >= t then vs[0] else t
  }

  /** `Math.min(...vs)` on a non-empty list. */
  function Smallest(vs: seq<int>): (m: int)
    requires vs != []
    ensures m in vs && forall v :: v in vs ==> m <= v
  {
    if |vs| == 1 then vs[0]
    else
      var t := Smallest(vs[1..]);
      assert forall v :: v in vs ==> v == vs[0] || v in vs[1..];
      if vs[0] <= t then vs[0] else t
  }

  /** The arithmetic mean of a non-empty list, before any rounding. */
  function Mean(vs: seq<int>): (m: real)
    requires vs != []
    ensures m * |vs| as real == Sum(vs) as real
  {
    Sum(vs) as real / |vs| as real
  }

  /** `average(arr, key)`: the mean of the present values, or null (never 0) when there are none. */
  function Average(w: seq<Entry>, key: Key): (r: Option<real>)
    ensures r.None? <==> forall i :: 0 <= i < |w| ==> Field(w[i], key).None?
    ensures r.Some? ==> Present(w, key) != [] && r.value == Mean(Present(w, key))
  {
    PresentMembers(w, key);
    var vs := Present(w, key);
    if |vs| == 0 then None
    else
      assert vs[0] in vs;
      Some(Mean(vs))
  }

  /** `max(arr, key)`: the largest present value, or null when there is none. */
  function Maximum(w: seq<Entry>, key: Key): (r: Option<int>)
    ensures r.None? <==> forall i :: 0 <= i < |w| ==> Field(w[i], key).None?
    ensures r.Some? ==> exists i :: 0 <= i < |w| && Field(w[i], key) == r
    ensures r.Some? ==> forall i :: 0 <= i < |w| && Field(w[i], key).Some? ==> Field(w[i], key).value <= r.value
  {
    PresentMembers(w, key);
    var vs := Present(w, key);
    if |vs| == 0 then None
    else
      assert vs[0] in vs;
      Some(Largest(vs))
  }

  /** `min(arr, key)`: the smallest present value, or null when there is none. */
  function Minimum(w: seq<Entry>, key: Key): (r: Option<int>)
    ensures r.None? <==> forall i :: 0 <= i < |w| ==> Field(w[i], key).None?
    ensures r.Some? ==> exists i :: 0 <= i < |w| && Field(w[i], key) == r
    ensures r.Some? ==> forall i :: 0 <= i < |w| && Field(w[i], key).Some? ==> r.value <= Field(w[i], key).value
  {
    PresentMembers(w, key);
    var vs := Present(w, key);
    if |vs| == 0 then None
    else
      assert vs[0] in vs;
      Some(Smallest(vs))
  }

  lemma {:induction false} SumAtMost(vs: seq<int>, bound: int)
    requires forall v :: v in vs ==> v <= bound
    ensures Sum(vs) <= |vs| * bound
  {
    if vs != [] {
      assert forall v :: v in vs[1..] ==> v in vs;
      SumAtMost(vs[1..], bound);
      assert vs[0] in vs;
      assert |vs| * bound == bound + (|vs| - 1) * bound;
    }
  }

  lemma {:induction false} SumAtLeast(vs: seq<int>, bound: int)
    requires forall v :: v in vs ==> bound <= v
    ensures |vs| * bound <= Sum(vs)
  {
    if vs != [] {
      assert forall v :: v in vs[1..] ==> v in vs;
      SumAtLeast(vs[1..], bound);
      assert vs[0] in vs;
      assert |vs| * bound == bound + (|vs| - 1) * bound;
    }
  }

  lemma QuotientBetween(s: int, n: int, lo: int, hi: int)
    requires n > 0 && n * lo <= s <= n * hi
    ensures lo as real <= s as real / n as real <= hi as real
  {
  }

  /** The mean of a non-empty list lies between its extremes. */
  lemma MeanBetween(vs: seq<int>)
    requires vs != []
    ensures Smallest(vs) as real <= Mean(vs) <= Largest(vs) as real
  {
    SumAtLeast(vs, Smallest(vs));
    SumAtMost(vs, Largest(vs));
    QuotientBetween(Sum(vs), |vs|, Smallest(vs), Largest(vs));
  }

  /** Before rounding, the average lies between the minimum and the maximum. */
  lemma AverageWithinExtremes(w: seq<Entry>, key: Key)
    requires Average(w, key).Some?
    ensures Minimum(w, key).Some? && Maximum(w, key).Some?
    ensures Minimum(w, key).value as real <= Average(w, key).value <= Maximum(w, key).value as real
  {
    var vs := Present(w, key);
    assert vs != [];
    MeanBetween(vs);
    assert Minimum(w, key) == Some(Smallest(vs));
    assert Maximum(w, key) == Some(Largest(vs));
    assert Average(w, key) == Some(Mean(vs));
  }

  datatype StatsReply =
    | NoStatsData
    | Snapshot(count: nat,
               avgSoc: Option<real>, maxSoc: Option<int>, minSoc: Option<int>,
               avgPower: Option<real>, maxPower: Option<int>,
               avgPvPower: Option<real>, maxPvPower: Option<int>,
               avgBatteryVoltage: Option<real>, avgBatteryTemp: Option<real>, maxBatteryTemp: Option<int>,
               from: Option<int>, to: Option<int>)

  /**
   * The `/stats` handler: "no data" when `min(limit, length)` is 0;
   * otherwise the aggregates over `slice(-count)`, its length, and the
   * timestamps of its first and last entries.
   */
  function Stats(h: seq<Entry>, limit: Option<int>): (r: StatsReply)
    ensures r.NoStatsData? <==> Js.Min(limit.GetOr(DefaultStatsLimit), |h|) == 0
    ensures r.Snapshot? ==>
      && r.count <= |h|
      && var w := h[|h| - r.count..];
      && r.avgSoc == Average(w, Soc) && r.maxSoc == Maximum(w, Soc) && r.minSoc == Minimum(w, Soc)
      && r.avgPvPower == Average(w, PvPower) && r.maxPvPower == Maximum(w, PvPower)
      && r.avgBatteryVoltage == Average(w, BatteryVoltage)
      && r.avgBatteryTemp == Average(w, BatteryTemp) && r.maxBatteryTemp == Maximum(w, BatteryTemp)
      && r.avgPower.None? && r.maxPower.None?
      && (r.count == 0 ==> r.from.None? && r.to.None?)
      && (r.count > 0 ==>
            && r.from == Some(h[|h| - r.count].data.timestamp)
            && r.to == Some(h[|h| - 1].data.timestamp)
            && r.avgPvPower.Some? && r.maxPvPower.Some?)
    ensures r.Snapshot? && limit.GetOr(DefaultStatsLimit) >= 1 ==>
      r.count == Js.Min(limit.GetOr(DefaultStatsLimit), |h|)
    ensures r.Snapshot? && limit.GetOr(DefaultStatsLimit) < 0 ==>
      r.count == |h| - Js.Min(-limit.GetOr(DefaultStatsLimit), |h|)
  {
    var count := Js.Min(limit.GetOr(DefaultStatsLimit), |h|);
    if count == 0 then
      NoStatsData
    else
      var w := Js.SliceFrom(h, -count);
      Snapshot(|w|,
               Average(w, Soc), Maximum(w, Soc), Minimum(w, Soc),
               Average(w, Power), Maximum(w, Power),
               Average(w, PvPower), Maximum(w, PvPower),
               Average(w, BatteryVoltage), Average(w, BatteryTemp), Maximum(w, BatteryTemp),
               if |w| > 0 then Some(w[0].data.timestamp) else None,
               if |w| > 0 then Some(w[|w| - 1].data.timestamp) else None)
  }
}
