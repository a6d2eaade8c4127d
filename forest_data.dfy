/** `frontend/src/utils/forestData.ts`: the `localStorage` cache with a 24-hour expiry,
    cache keys built from parameters, the cache-first flow shared by the three data
    functions, the regional status rules, the coordinates-to-country rules and the
    generators used when no API answers. The clock, the online flag and API results
    are parameters. */
module ForestData {
  import opened Wrappers
  import Text
  import Seqs

  // ---------------------------------------------------------------------------------
  // Regions
  // ---------------------------------------------------------------------------------

  datatype ForestRegion = ForestRegion(id: string, name: string, lat: real, lng: real, radius: nat)

  const ForestRegions: seq<ForestRegion> := [
    ForestRegion("amazon", "Amazon Basin", -3.4653, -62.2159, 1000),
    ForestRegion("congo", "Congo Basin", -0.7282, 23.6558, 800),
    ForestRegion("boreal", "Boreal Forest", 60.1756, -112.4535, 1200),
    ForestRegion("southeast", "Southeast Asia", 3.9617, 108.3042, 900),
    ForestRegion("atlantic", "Atlantic Forest", -22.9279, -43.2075, 700)
  ]

  /** The position of the first region with the given id. */
  function FirstIndexOf(regions: seq<ForestRegion>, id: string): (r: Option<nat>)
    ensures r.Some? ==> r.value < |regions| && regions[r.value].id == id
                        && forall i :: 0 <= i < r.value ==> regions[i].id != id
    ensures r.None? ==> forall i :: 0 <= i < |regions| ==> regions[i].id != id
  {
    if regions == [] then None
    else if regions[0].id == id then Some(0)
    else
      match FirstIndexOf(regions[1..], id)
      case None => None
      case Some(k) => Some(k + 1)
  }

  /** `FOREST_REGIONS.find(r => r.id === id)` over any list of regions. */
  function FindRegionIn(regions: seq<ForestRegion>, id: string): (r: Option<ForestRegion>)
    ensures r.Some? ==> r.value in regions && r.value.id == id
    ensures r.None? <==> forall i :: 0 <= i < |regions| ==> regions[i].id != id
    ensures r.Some? ==> exists k :: 0 <= k < |regions| && regions[k] == r.value
                          && forall i :: 0 <= i < k ==> regions[i].id != id
  {
    match FirstIndexOf(regions, id)
    case None => None
    case Some(k) => Some(regions[k])
  }

  function FindRegion(id: string): Option<ForestRegion> {
    FindRegionIn(ForestRegions, id)
  }

  // ---------------------------------------------------------------------------------
  // The localStorage cache
  // ---------------------------------------------------------------------------------

  /** Entries expire after 24 hours, in ms. */
  const CacheExpiration: int := 24 * 60 * 60 * 1000

  const ForestCoverageKey: string := "forest_coverage_cache"
  const RegionalDataKey: string := "regional_data_cache"
  const SatelliteAlertsKey: string := "satellite_alerts_cache"

  /** What a storage slot holds: a parsable item with its data and save time, or text
      that does not parse as one. */
  datatype Stored<T> = Stored(data: T, timestamp: int) | Unreadable

  /** What `getFromCache(key)` returns at time `now`. */
  function CacheRead<T>(store: map<string, Stored<T>>, key: string, now: int): Option<T> {
    if key !in store then None
    else match store[key]
      case Unreadable => None
      case Stored(data, timestamp) => if now - timestamp > CacheExpiration then None else Some(data)
  }

  /** The store after `getFromCache(key)` at time `now`: only an expired item is
      removed; an unreadable one stays. */
  function AfterCacheRead<T>(store: map<string, Stored<T>>, key: string, now: int): map<string, Stored<T>> {
    if key in store && store[key].Stored? && now - store[key].timestamp > CacheExpiration then store - {key}
    else store
  }

  /** The store after `saveToCache(key, data)` at time `now`; a write the browser
      refuses (`quotaExceeded`) is swallowed and leaves the store as it was. */
  function CacheWrite<T>(store: map<string, Stored<T>>, key: string, data: T, now: int, quotaExceeded: bool): map<string, Stored<T>> {
    if quotaExceeded then store else store[key := Stored(data, now)]
  }

  /** The browser's `localStorage`, holding items of one data type. */
  class LocalStore<T> {
    var items: map<string, Stored<T>>

    constructor (initial: map<string, Stored<T>>)
      ensures items == initial
    {
      items := initial;
    }

    method SaveToCache(key: string, data: T, now: int, quotaExceeded: bool)
      modifies this
      ensures items == CacheWrite(old(items), key, data, now, quotaExceeded)
    {
      if !quotaExceeded {
        items := items[key := Stored(data, now)];
      }
    }

    method GetFromCache(key: string, now: int) returns (r: Option<T>)
      modifies this
      ensures r == CacheRead(old(items), key, now)
      ensures items == AfterCacheRead(old(items), key, now)
    {
      if key !in items {
        return None;
      }
      match items[key]
      case Unreadable =>
        return None;
      case Stored(data, timestamp) =>
        if now - timestamp > CacheExpiration {
          items := items - {key};
          return None;
        }
        return Some(data);
    }

    method ClearCache(key: string)
      modifies this
      ensures items == old(items) - {key}
    {
      items := items - {key};
    }
  }

  /** A saved item is read back unchanged for 24 hours, the boundary included, and the
      read leaves the store as it was. */
  lemma ReadAfterSaveFresh<T>(store: map<string, Stored<T>>, key: string, data: T, t: int, now: int)
    requires now - t <= CacheExpiration
    ensures CacheRead(CacheWrite(store, key, data, t, false), key, now) == Some(data)
    ensures AfterCacheRead(CacheWrite(store, key, data, t, false), key, now) == CacheWrite(store, key, data, t, false)
  {
  }

  /** After 24 hours the read returns nothing and removes that key alone. */
  lemma ReadAfterSaveStale<T>(store: map<string, Stored<T>>, key: string, data: T, t: int, now: int)
    requires now - t > CacheExpiration
    ensures CacheRead(CacheWrite(store, key, data, t, false), key, now) == None
    ensures AfterCacheRead(CacheWrite(store, key, data, t, false), key, now) == store - {key}
  {
  }

  /** An absent key and an unreadable item both read as nothing, and nothing is
      removed. */
  lemma ReadMissingOrUnreadable<T>(store: map<string, Stored<T>>, key: string, now: int)
    requires key !in store || store[key].Unreadable?
    ensures CacheRead(store, key, now) == None
    ensures AfterCacheRead(store, key, now) == store
  {
  }

  /** A cleared key reads as nothing. */
  lemma ReadAfterClear<T>(store: map<string, Stored<T>>, key: string, now: int)
    ensures CacheRead(store - {key}, key, now) == None
  {
  }

  // ---------------------------------------------------------------------------------
  // buildCacheKey
  // ---------------------------------------------------------------------------------

  function ParamText(p: (string, string)): string {
    p.0 + "=" + p.1
  }

  /** The `key=value` texts of the parameters, in insertion order, joined by '&'. */
  function JoinParams(params: seq<(string, string)>): string {
    if params == [] then ""
    else if |params| == 1 then ParamText(params[0])
    else JoinParams(params[..|params| - 1]) + "&" + ParamText(params[|params| - 1])
  }

  /** `buildCacheKey(base, params)`: the base, an underscore, then the parameters. */
  function BuildCacheKey(base: string, params: seq<(string, string)>): (r: string)
    ensures base + "_" <= r
    ensures params == [] ==> r == base + "_"
  {
    base + "_" + JoinParams(params)
  }

  /** One more parameter appends '&' and its `key=value` text. */
  lemma BuildCacheKeyAppend(base: string, params: seq<(string, string)>, p: (string, string))
    requires params != []
    ensures BuildCacheKey(base, params + [p]) == BuildCacheKey(base, params) + "&" + p.0 + "=" + p.1
  {
    assert (params + [p])[..|params + [p]| - 1] == params;
  }

  /** The key `getForestCoverageData` uses. */
  lemma CoverageCacheKey(timeRange: string, region: string)
    ensures BuildCacheKey(ForestCoverageKey, [("timeRange", timeRange), ("region", region)])
            == "forest_coverage_cache_timeRange=" + timeRange + "&region=" + region
  {
    var ps := [("timeRange", timeRange), ("region", region)];
    assert ps[..1] == [("timeRange", timeRange)];
    assert JoinParams(ps) == "timeRange" + "=" + timeRange + "&" + "region" + "=" + region;
  }

  // ---------------------------------------------------------------------------------
  // Regional status and change string
  // ---------------------------------------------------------------------------------

  /** The status band of a change in coverage, in percentage points. */
  function RegionStatus(change: real): (s: string)
    ensures s in {"improving", "recovering", "stable", "declining", "critical"}
  {
    if change > 1.0 then "improving"
    else if change > 0.1 then "recovering"
    else if change > -0.1 then "stable"
    else if change > -1.0 then "declining"
    else "critical"
  }

  function StatusRank(s: string): nat {
    if s == "critical" then 0
    else if s == "declining" then 1
    else if s == "stable" then 2
    else if s == "recovering" then 3
    else 4
  }

  /** A larger change never gives a worse status. */
  lemma RegionStatusMonotone(a: real, b: real)
    requires a <= b
    ensures StatusRank(RegionStatus(a)) <= StatusRank(RegionStatus(b))
  {
  }

  /** The bands: each status holds on exactly one interval of change. */
  lemma RegionStatusBands(change: real)
    ensures RegionStatus(change) == "improving" <==> change > 1.0
    ensures RegionStatus(change) == "recovering" <==> 0.1 < change <= 1.0
    ensures RegionStatus(change) == "stable" <==> -0.1 < change <= 0.1
    ensures RegionStatus(change) == "declining" <==> -1.0 < change <= -0.1
    ensures RegionStatus(change) == "critical" <==> change <= -1.0
  {
  }

  /** The displayed change: a '+' for a non-negative change, then the formatted
      percentage and '%'. */
  function ChangeString(change: real, percentText: string): (r: string)
    ensures |r| > |percentText| && r[|r| - 1] == '%'
    ensures percentText <= r[|r| - |percentText| - 1..]
  {
    (if change >= 0.0 then "+" else "") + percentText + "%"
  }

  /** For a percentage text as `toFixed` writes it (never with a leading '+'), the
      change string starts with '+' exactly when the change is not negative. */
  lemma ChangeStringSign(change: real, percentText: string)
    requires percentText == [] || percentText[0] != '+'
    ensures ChangeString(change, percentText)[0] == '+' <==> change >= 0.0
  {
  }

  datatype RegionForestData = RegionForestData(region: string, coverage: real, change: string, status: string)

  /** The record the API path builds for one region. */
  function RegionalRecord(name: string, coverage: real, previousCoverage: real, percentText: string): (r: RegionForestData)
    ensures r.region == name && r.coverage == coverage && r.change != []
    ensures StatusRank(r.status) >= 3 ==> r.change[0] == '+'
    ensures (percentText == [] || percentText[0] != '+') && StatusRank(r.status) <= 1 ==> r.change[0] != '+'
  {
    var change := coverage - previousCoverage;
    RegionForestData(name, coverage, ChangeString(change, percentText), RegionStatus(change))
  }

  /** What the API gave for one region: nothing usable (no geostore id, an error, an
      empty response) or this and last year's coverage with the formatted percentage
      change. */
  datatype RegionFetch = Unavailable | Measured(coverage: real, previousCoverage: real, percentText: string)

  function RegionalResults(regions: seq<ForestRegion>, fetches: seq<RegionFetch>): seq<RegionForestData>
    requires |fetches| == |regions|
  {
    if regions == [] then []
    else
      var n := |regions| - 1;
      var init := RegionalResults(regions[..n], fetches[..n]);
      match fetches[n]
      case Unavailable => init
      case Measured(c, p, t) => init + [RegionalRecord(regions[n].name, c, p, t)]
  }

  /** The loop over `FOREST_REGIONS` in `getRegionalForestData`: one record per region
      the API measured, in region order. */
  method CollectRegionalData(fetches: seq<RegionFetch>) returns (results: seq<RegionForestData>)
    requires |fetches| == |ForestRegions|
    ensures results == RegionalResults(ForestRegions, fetches)
    ensures |results| <= |ForestRegions|
  {
    results := [];
    for i := 0 to |ForestRegions|
      invariant results == RegionalResults(ForestRegions[..i], fetches[..i])
      invariant |results| <= i
    {
      assert ForestRegions[..i + 1][..i] == ForestRegions[..i];
      assert fetches[..i + 1][..i] == fetches[..i];
      match fetches[i]
      case Unavailable =>
      case Measured(c, p, t) =>
        results := results + [RegionalRecord(ForestRegions[i].name, c, p, t)];
    }
    assert ForestRegions[..|ForestRegions|] == ForestRegions;
    assert fetches[..|fetches|] == fetches;
  }

  /** `generateRegionalForestData`: the fixed table, one record per region in
      `FOREST_REGIONS` order. */
  function GeneratedRegionalData(): (r: seq<RegionForestData>)
    ensures |r| == |ForestRegions|
    ensures forall i :: 0 <= i < |r| ==> r[i].region == ForestRegions[i].name
  {
    [
      RegionForestData("Amazon Basin", 82.4, "+1.2%", "improving"),
      RegionForestData("Congo Basin", 75.8, "-0.8%", "declining"),
      RegionForestData("Boreal Forest", 91.2, "+0.3%", "stable"),
      RegionForestData("Southeast Asia", 68.5, "-2.1%", "critical"),
      RegionForestData("Atlantic Forest", 45.2, "+3.4%", "recovering")
    ]
  }

  // ---------------------------------------------------------------------------------
  // getCountryFromCoordinates
  // ---------------------------------------------------------------------------------

  predicate InBrazil(lat: real, lng: real) { lat < 0.0 && lng < -30.0 }
  predicate InDrc(lat: real, lng: real) { lat < 10.0 && lat > -10.0 && lng > 10.0 && lng < 30.0 }
  predicate InCanada(lat: real, lng: real) { lat > 45.0 && lng < -90.0 }
  predicate InIndonesia(lat: real, lng: real) { lat > 0.0 && lat < 10.0 && lng > 90.0 && lng < 120.0 }

  /** The first rule that matches names the country; 'Region' when none does. */
  function CountryFromCoordinates(lat: real, lng: real): (r: string)
    ensures r in {"Brazil", "DRC", "Canada", "Indonesia", "Region"}
  {
    if InBrazil(lat, lng) then "Brazil"
    else if InDrc(lat, lng) then "DRC"
    else if InCanada(lat, lng) then "Canada"
    else if InIndonesia(lat, lng) then "Indonesia"
    else "Region"
  }

  /** No point satisfies two rules, so the order of the rules never matters: each
      country is returned exactly when its own rule holds. */
  lemma CountryRulesExclusive(lat: real, lng: real)
    ensures CountryFromCoordinates(lat, lng) == "Brazil" <==> InBrazil(lat, lng)
    ensures CountryFromCoordinates(lat, lng) == "DRC" <==> InDrc(lat, lng)
    ensures CountryFromCoordinates(lat, lng) == "Canada" <==> InCanada(lat, lng)
    ensures CountryFromCoordinates(lat, lng) == "Indonesia" <==> InIndonesia(lat, lng)
    ensures CountryFromCoordinates(lat, lng) == "Region"
            <==> !InBrazil(lat, lng) && !InDrc(lat, lng) && !InCanada(lat, lng) && !InIndonesia(lat, lng)
  {
  }

  /** The country each forest region's centre is attributed to. */
  lemma RegionCountries()
    ensures CountryFromCoordinates(ForestRegions[0].lat, ForestRegions[0].lng) == "Brazil"
    ensures CountryFromCoordinates(ForestRegions[1].lat, ForestRegions[1].lng) == "DRC"
    ensures CountryFromCoordinates(ForestRegions[2].lat, ForestRegions[2].lng) == "Canada"
    ensures CountryFromCoordinates(ForestRegions[3].lat, ForestRegions[3].lng) == "Indonesia"
    ensures CountryFromCoordinates(ForestRegions[4].lat, ForestRegions[4].lng) == "Brazil"
  {
  }

  // ---------------------------------------------------------------------------------
  // generateForestData: calendar arithmetic
  // ---------------------------------------------------------------------------------

  /** A calendar date; `month` counts from 0 as in JavaScript. */
  datatype Date = Date(year: int, month: int, day: int)

  /** The "MMM YYYY" label of a month, kept as its month and year. */
  datatype MonthLabel = MonthLabel(month: int, year: int)

  predicate IsLeapYear(y: int) {
    (y % 4 == 0 && y % 100 != 0) || y % 400 == 0
  }

  function DaysInMonth(y: int, m: int): (n: nat)
    requires 0 <= m < 12
    ensures 28 <= n <= 31
  {
    if m == 1 then (if IsLeapYear(y) then 29 else 28)
    else if m == 3 || m == 5 || m == 8 || m == 10 then 30
    else 31
  }

  predicate ValidDate(d: Date) {
    0 <= d.month < 12 && 1 <= d.day <= DaysInMonth(d.year, d.month)
  }

  /** `date.setMonth(m)`: the month index is counted from January of the date's year and
      may fall outside 0..11; the day of the month is kept, and a day the target month
      does not have runs on into the following month. */
  function SetMonth(d: Date, m: int): (r: Date)
    requires ValidDate(d)
    ensures ValidDate(r)
  {
    var total := d.year * 12 + m;
    var y := total / 12;
    var mo := total % 12;
    var dim := DaysInMonth(y, mo);
    if d.day <= dim then Date(y, mo, d.day)
    else if mo == 11 then Date(y + 1, 0, d.day - dim)
    else Date(y, mo + 1, d.day - dim)
  }

  function LabelOf(d: Date): MonthLabel {
    MonthLabel(d.month, d.year)
  }

  /** Months counted from year 0, so that consecutive months differ by one. */
  function MonthNumber(l: MonthLabel): int {
    l.year * 12 + l.month
  }

  /** The month count of a time range: '1month', '3months', '6months', '1year', and 6
      for anything else. */
  function MonthCount(timeRange: string): (n: nat)
    ensures n in {1, 3, 6, 12}
    ensures timeRange !in {"1month", "3months", "1year"} ==> n == 6
  {
    match timeRange
    case "1month" => 1
    case "3months" => 3
    case "6months" => 6
    case "1year" => 12
    case _ => 6
  }

  /** The label the generator writes at position `i`, as the code computes it: a copy
      of today with `setMonth(currentMonth - (months - 1) + i)`. */
  function LabelAsWritten(today: Date, months: nat, i: int): MonthLabel
    requires ValidDate(today)
  {
    LabelOf(SetMonth(today, today.month - (months - 1) + i))
  }

  /** The month `k` months after today's (before it for a negative `k`). */
  function MonthsFrom(today: Date, k: int): MonthLabel {
    var total := today.year * 12 + today.month + k;
    MonthLabel(total % 12, total / 12)
  }

  lemma MonthsFromNumber(today: Date, k: int)
    requires 0 <= today.month < 12
    ensures MonthNumber(MonthsFrom(today, k)) == today.year * 12 + today.month + k
  {
  }

  datatype ForestPoint = ForestPoint(month: MonthLabel)

  /** The series `generateForestData` returns, as written. */
  function ForestSeriesAsWritten(timeRange: string, today: Date): seq<ForestPoint>
    requires ValidDate(today)
  {
    var months := MonthCount(timeRange);
    seq(months, i requires 0 <= i < months => ForestPoint(LabelAsWritten(today, months, i)))
  }

  /** The month-label loop of `generateForestData` as written: one point per month of
      the time range, each labelled through `setMonth` on a copy of today. */
  method GenerateForestDataAsWritten(timeRange: string, today: Date) returns (result: seq<ForestPoint>)
    requires ValidDate(today)
    ensures |result| == MonthCount(timeRange)
    ensures forall i :: 0 <= i < |result| ==> result[i].month == LabelAsWritten(today, MonthCount(timeRange), i)
    ensures result == ForestSeriesAsWritten(timeRange, today)
  {
    var months := MonthCount(timeRange);
    result := [];
    for i := 0 to months
      invariant |result| == i
      invariant forall j :: 0 <= j < i ==> result[j].month == LabelAsWritten(today, months, j)
    {
      var date := SetMonth(today, today.month - (months - 1) + i);
      result := result + [ForestPoint(LabelOf(date))];
    }
  }

  /** On 31 October 2026 the six-month series is labelled May, Jul, Jul, Aug, Oct, Oct:
      June and September are skipped and July and October appear twice. */
  lemma AsWrittenRepeatsMonths()
    ensures LabelAsWritten(Date(2026, 9, 31), 6, 0) == MonthLabel(4, 2026)
    ensures LabelAsWritten(Date(2026, 9, 31), 6, 1) == MonthLabel(6, 2026)
    ensures LabelAsWritten(Date(2026, 9, 31), 6, 2) == MonthLabel(6, 2026)
    ensures LabelAsWritten(Date(2026, 9, 31), 6, 4) == MonthLabel(9, 2026)
    ensures LabelAsWritten(Date(2026, 9, 31), 6, 5) == MonthLabel(9, 2026)
  {
  }

  /** The month-label loop with each label taken from the first day of its month, so that
      the series is the last `months` months ending with the current one. */
  method GenerateForestData(timeRange: string, today: Date) returns (result: seq<ForestPoint>)
    requires ValidDate(today)
    ensures |result| == MonthCount(timeRange)
    ensures forall i :: 0 <= i < |result| ==> result[i].month == MonthsFrom(today, i - (|result| - 1))
  {
    var months := MonthCount(timeRange);
    result := [];
    for i := 0 to months
      invariant |result| == i
      invariant forall j :: 0 <= j < i ==> result[j].month == MonthsFrom(today, j - (months - 1))
    {
      var first := Date(today.year, today.month, 1);
      var date := SetMonth(first, today.month - (months - 1) + i);
      assert LabelOf(date) == MonthsFrom(today, i - (months - 1));
      result := result + [ForestPoint(LabelOf(date))];
    }
  }

  /** The corrected series runs through consecutive months, so no label repeats, and
      ends with the current month. */
  lemma GeneratedMonthsConsecutive(today: Date, n: nat, i: nat)
    requires 0 <= today.month < 12
    requires 0 < n && i + 1 < n
    ensures MonthNumber(MonthsFrom(today, i + 1 - (n - 1))) == MonthNumber(MonthsFrom(today, i - (n - 1))) + 1
    ensures MonthsFrom(today, 0) == MonthLabel(today.month, today.year)
  {
    MonthsFromNumber(today, i + 1 - (n - 1));
    MonthsFromNumber(today, i - (n - 1));
  }

  /** The base coverage, loss and gain of a region; 'global' and unknown ids keep the
      global values. */
  function RegionBase(region: string): (r: (real, real, real))
    ensures region !in {"amazon", "congo", "boreal", "southeast", "atlantic"} ==> r == (76.0, 2.0, 1.8)
    ensures r.0 > 0.0 && r.1 > 0.0 && r.2 > 0.0
  {
    if region == "global" then (76.0, 2.0, 1.8)
    else match region
      case "amazon" => (82.0, 2.5, 1.5)
      case "congo" => (75.0, 2.2, 1.4)
      case "boreal" => (90.0, 1.2, 1.5)
      case "southeast" => (68.0, 3.0, 0.9)
      case "atlantic" => (45.0, 1.0, 4.0)
      case _ => (76.0, 2.0, 1.8)
  }

  // ---------------------------------------------------------------------------------
  // generateSatelliteAlerts
  // ---------------------------------------------------------------------------------

  /** An alert; its date is kept as the number of days before today. */
  datatype SatelliteAlert = SatelliteAlert(
    daysAgo: nat, location: string, alertType: string, severity: string, area: string, lat: real, lng: real)

  const AllAlerts: seq<SatelliteAlert> := [
    SatelliteAlert(1, "Amazon Basin, Brazil", "Deforestation Alert", "high", "45.2 hectares", -3.4653, -62.2159),
    SatelliteAlert(2, "Congo Basin, DRC", "Illegal Logging", "critical", "12.8 hectares", -0.7282, 23.6558),
    SatelliteAlert(1, "Borneo, Indonesia", "Fire Detection", "medium", "28.5 hectares", 3.9617, 108.3042),
    SatelliteAlert(3, "Atlantic Forest, Brazil", "Restoration Progress", "positive", "67.3 hectares", -22.9279, -43.2075),
    SatelliteAlert(0, "Boreal Forest, Canada", "Forest Health Alert", "medium", "135.6 hectares", 60.1756, -112.4535)
  ]

  function MatchesRegion(name: string): SatelliteAlert -> bool {
    (a: SatelliteAlert) => Text.Contains(Text.ToLower(a.location), Text.ToLower(name))
  }

  /** `generateSatelliteAlerts(region)`: for a known region id other than 'global', the
      alerts whose location mentions the region's name, ignoring case, in their order;
      otherwise all of them. */
  function GenerateSatelliteAlerts(region: string): (r: seq<SatelliteAlert>)
    ensures Seqs.IsSubsequence(r, AllAlerts)
    ensures region == "global" || FindRegion(region).None? ==> r == AllAlerts
    ensures region != "global" && FindRegion(region).Some? ==>
              forall i :: 0 <= i < |r| ==> MatchesRegion(FindRegion(region).value.name)(r[i])
    ensures region != "global" && FindRegion(region).Some? ==>
              forall i :: 0 <= i < |AllAlerts| && MatchesRegion(FindRegion(region).value.name)(AllAlerts[i]) ==> AllAlerts[i] in r
  {
    if region != "global" && FindRegion(region).Some? then
      Seqs.FilterMembers(AllAlerts, MatchesRegion(FindRegion(region).value.name));
      Seqs.Filter(AllAlerts, MatchesRegion(FindRegion(region).value.name))
    else
      Seqs.SubsequenceSelf(AllAlerts);
      AllAlerts
  }

  /** 'Borneo, Indonesia' does not mention 'Southeast Asia', so that region gets no
      alert at all. */
  lemma SoutheastHasNoAlerts()
    ensures GenerateSatelliteAlerts("southeast") == []
  {
    SoutheastRegion();
    NoAlertInSoutheastAsia();
    Seqs.FilterNone(AllAlerts, MatchesRegion("Southeast Asia"));
  }

  lemma SoutheastRegion()
    ensures FindRegion("southeast") == Some(ForestRegions[3])
  {
    var id := "southeast";
    assert ForestRegions[3].id == id;
    assert ForestRegions[0].id[0] == 'a' && ForestRegions[1].id[0] == 'c';
    assert ForestRegions[2].id[0] == 'b' && ForestRegions[4].id[0] == 'a';
    assert FirstIndexOf(ForestRegions, id) == Some(3);
  }

  lemma NoAlertInSoutheastAsia()
    ensures forall i :: 0 <= i < |AllAlerts| ==> !MatchesRegion("Southeast Asia")(AllAlerts[i])
  {
    forall i | 0 <= i < |AllAlerts| ensures !MatchesRegion("Southeast Asia")(AllAlerts[i]) {
      NotSoutheastAsia(i);
    }
  }

  /** None of the five locations holds "southeast asia" once lower-cased. */
  lemma NotSoutheastAsia(k: nat)
    requires k < |AllAlerts|
    ensures !Text.Contains(Text.ToLower(AllAlerts[k].location), Text.ToLower("Southeast Asia"))
  {
    var s := AllAlerts[k].location;
    if k == 0 {
      assert s == "Amazon Basin, Brazil";
    } else if k == 1 {
      assert s == "Congo Basin, DRC";
    } else if k == 2 {
      assert s == "Borneo, Indonesia";
    } else if k == 3 {
      assert s == "Atlantic Forest, Brazil";
    } else {
      assert s == "Boreal Forest, Canada";
    }
    NoSoutheastAsia(s);
  }

  /** "southeast asia" does not occur in the lower-case form of `s` when no position
      where it would fit holds an 's'. */
  lemma NoSoutheastAsia(s: string)
    requires forall j :: 0 <= j && j + 14 <= |s| ==> Text.LowerChar(s[j]) != 's'
    ensures !Text.Contains(Text.ToLower(s), Text.ToLower("Southeast Asia"))
  {
    var t := Text.ToLower("Southeast Asia");
    assert |t| == 14 && t[0] == 's';
    Text.NotContainsByHead(Text.ToLower(s), t);
  }

  // ---------------------------------------------------------------------------------
  // The cache-first flow
  // ---------------------------------------------------------------------------------

  /** The store once the cache-first flow has returned `r`: the read has removed an
      expired entry; when nothing fresh was cached and the browser is online, `r` has
      then been saved under the key. */
  function StoreAfter<U>(items: map<string, Stored<seq<U>>>, key: string, now: int, online: bool,
                         r: seq<U>, quotaExceeded: bool): map<string, Stored<seq<U>>> {
    var afterRead := AfterCacheRead(items, key, now);
    if CacheRead(items, key, now).None? && online then CacheWrite(afterRead, key, r, now, quotaExceeded)
    else afterRead
  }

  /** The flow shared by `getForestCoverageData`, `getRegionalForestData` and
      `getSatelliteAlerts`: a cached list is returned as it is; offline with nothing
      cached gives the empty list; otherwise the API result, or the generated fallback
      when the API path failed, is saved and returned. `fetched` is `None` when the API
      path threw. */
  method CacheFirst<U>(store: LocalStore<seq<U>>, key: string, now: int, online: bool,
                       fetched: Option<seq<U>>, fallback: seq<U>, quotaExceeded: bool)
    returns (r: seq<U>)
    modifies store
    ensures var afterRead := AfterCacheRead(old(store.items), key, now);
            match CacheRead(old(store.items), key, now)
            case Some(cached) => r == cached && store.items == afterRead
            case None =>
              if !online then r == [] && store.items == afterRead
              else r == fetched.GetOr(fallback) && store.items == CacheWrite(afterRead, key, r, now, quotaExceeded)
  {
    var cached := store.GetFromCache(key, now);
    if cached.Some? {
      return cached.value;
    }
    if !online {
      return [];
    }
    if fetched.Some? {
      r := fetched.value;
    } else {
      r := fallback;
    }
    store.SaveToCache(key, r, now, quotaExceeded);
  }

  /** `getForestCoverageData`: the coverage series for a time range and region. */
  method GetForestCoverageData(store: LocalStore<seq<ForestPoint>>, timeRange: string, region: string,
                               today: Date, now: int, online: bool, fetched: Option<seq<ForestPoint>>,
                               quotaExceeded: bool)
    returns (r: seq<ForestPoint>)
    requires ValidDate(today)
    modifies store
    ensures var key := BuildCacheKey(ForestCoverageKey, [("timeRange", timeRange), ("region", region)]);
            match CacheRead(old(store.items), key, now)
            case Some(cached) => r == cached
            case None => r == (if !online then [] else fetched.GetOr(ForestSeriesAsWritten(timeRange, today)))
    ensures var key := BuildCacheKey(ForestCoverageKey, [("timeRange", timeRange), ("region", region)]);
            store.items == StoreAfter(old(store.items), key, now, online, r, quotaExceeded)
    ensures var key := BuildCacheKey(ForestCoverageKey, [("timeRange", timeRange), ("region", region)]);
            CacheRead(old(store.items), key, now).None? && online && fetched.None? ==> |r| == MonthCount(timeRange)
  {
    var key := BuildCacheKey(ForestCoverageKey, [("timeRange", timeRange), ("region", region)]);
    var generated := GenerateForestDataAsWritten(timeRange, today);
    r := CacheFirst(store, key, now, online, fetched, generated, quotaExceeded);
  }

  /** `getRegionalForestData`: without an API key, or when no region was measured, the
      generated table is used. */
  method GetRegionalForestData(store: LocalStore<seq<RegionForestData>>, now: int, online: bool,
                               hasApiKey: bool, fetches: seq<RegionFetch>, quotaExceeded: bool)
    returns (r: seq<RegionForestData>)
    requires |fetches| == |ForestRegions|
    modifies store
    ensures match CacheRead(old(store.items), RegionalDataKey, now)
            case Some(cached) => r == cached
            case None =>
              r == (if !online then []
                    else if hasApiKey && |RegionalResults(ForestRegions, fetches)| > 0 then RegionalResults(ForestRegions, fetches)
                    else GeneratedRegionalData())
    ensures store.items == StoreAfter(old(store.items), RegionalDataKey, now, online, r, quotaExceeded)
    ensures CacheRead(old(store.items), RegionalDataKey, now).None? && online ==> r != []
  {
    var fetched: Option<seq<RegionForestData>> := None;
    if hasApiKey {
      var results := CollectRegionalData(fetches);
      if |results| > 0 {
        fetched := Some(results);
      }
    }
    r := CacheFirst(store, RegionalDataKey, now, online, fetched, GeneratedRegionalData(), quotaExceeded);
  }

  /** `getSatelliteAlerts`: `apiAlerts` holds the alerts the API path produced, already
      sorted, or `None` when that path threw; an empty list counts as a failure. */
  method GetSatelliteAlerts(store: LocalStore<seq<SatelliteAlert>>, region: string, now: int, online: bool,
                            apiAlerts: Option<seq<SatelliteAlert>>, quotaExceeded: bool)
    returns (r: seq<SatelliteAlert>)
    modifies store
    ensures var key := BuildCacheKey(SatelliteAlertsKey, [("region", region)]);
            match CacheRead(old(store.items), key, now)
            case Some(cached) => r == cached
            case None =>
              r == (if !online then []
                    else if apiAlerts.Some? && apiAlerts.value != [] then apiAlerts.value
                    else GenerateSatelliteAlerts(region))
    ensures var key := BuildCacheKey(SatelliteAlertsKey, [("region", region)]);
            store.items == StoreAfter(old(store.items), key, now, online, r, quotaExceeded)
  {
    var key := BuildCacheKey(SatelliteAlertsKey, [("region", region)]);
    var fetched := if apiAlerts.Some? && |apiAlerts.value| > 0 then apiAlerts else None;
    r := CacheFirst(store, key, now, online, fetched, GenerateSatelliteAlerts(region), quotaExceeded);
  }
}
