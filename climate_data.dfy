/** `frontend/src/utils/climateData.ts`: the monthly climate-risk model (fire, drought,
    flood and storm indices for the past eight months, weighted by the risk factors of
    the monitored locations and capped at 100), its use as the fallback of the NOAA
    request, and the hourly temperature series. The clock, the random draws and the
    transcendental terms (`Math.pow`, `Math.sin`, `Math.cos`) are parameters. */
module ClimateData {
  import opened Wrappers
  import Text
  import Decimal
  import Weather

  const MonthNames: seq<string> :=
    ["Jan", "Feb", "Mar", "Apr", "May", "Jun", "Jul", "Aug", "Sep", "Oct", "Nov", "Dec"]

  datatype RiskData = RiskData(month: string, fire: int, drought: int, flood: int, storm: int)

  /** The month `i` months before `currentMonth`, as an index into `MonthNames`:
      `(currentMonth - i + 12) % 12`, written without the remainder since the sum lies
      between 1 and 23. */
  function MonthIndex(currentMonth: nat, i: nat): (r: nat)
    requires currentMonth < 12 && i < 12
    ensures r < 12
    ensures r + i == currentMonth || r + i == currentMonth + 12
  {
    if i <= currentMonth then currentMonth - i else currentMonth + 12 - i
  }

  /** It is the remainder the source computes. */
  lemma MonthIndexIsRemainder(currentMonth: nat, i: nat)
    requires currentMonth < 12 && i < 12
    ensures MonthIndex(currentMonth, i) == (currentMonth - i + 12) % 12
    ensures (MonthIndex(currentMonth, i) + i) % 12 == currentMonth
  {
  }

  /** One month further back is the calendar month before. */
  lemma MonthIndexStep(currentMonth: nat, i: nat)
    requires currentMonth < 12 && i + 1 < 12
    ensures MonthIndex(currentMonth, i + 1) == (MonthIndex(currentMonth, i) + 11) % 12
  {
  }

  /** Fire risk peaks in the summer months and is lowest in January. */
  function BaseFire(m: nat): (r: nat)
    requires m < 12
    ensures 10 <= r <= 90
  {
    if 4 <= m <= 8 then 50 + (m - 4) * 10
    else if m > 8 then 50 - (m - 9) * 10
    else 10 + m * 5
  }

  /** Drought risk builds up from April to October and is 20 otherwise. */
  function BaseDrought(m: nat): (r: nat)
    requires m < 12
    ensures 20 <= r <= 78
    ensures (r == 20) <==> !(3 <= m <= 9)
  {
    if 3 <= m <= 9 then 30 + (m - 3) * 8 else 20
  }

  /** Flood risk peaks in spring. */
  function BaseFlood(m: nat): (r: nat)
    requires m < 12
    ensures 20 <= r <= 70
    ensures r >= 40 <==> 1 <= m <= 4
  {
    if 1 <= m <= 4 then 40 + (m - 1) * 10
    else if m == 5 || m == 0 then 35
    else 20
  }

  /** Storm risk has its peak in the hurricane season and smaller ones in summer and
      winter. */
  function BaseStorm(m: nat): (r: nat)
    requires m < 12
    ensures 25 <= r <= 70
    ensures r >= 60 <==> m == 8 || m == 9
  {
    if m == 8 || m == 9 then 60 + (m - 8) * 10
    else if 5 <= m <= 7 then 40 + (m - 5) * 5
    else if m <= 2 then 35 + m * 5
    else 25
  }

  /** The months each base risk peaks in: fire in September, drought and storms in
      October, floods in May (months counted from 0 for January). */
  lemma BaseRiskPeaks(m: nat)
    requires m < 12
    ensures BaseFire(m) <= BaseFire(8) && BaseDrought(m) <= BaseDrought(9)
    ensures BaseFlood(m) <= BaseFlood(4) && BaseStorm(m) <= BaseStorm(9)
    ensures BaseFire(m) == 90 ==> m == 8
    ensures BaseDrought(m) == 78 ==> m == 9
  {
  }

  /** `risks.some(r => words.some(w => r.toLowerCase().includes(w)))`. */
  predicate Mentions(risks: seq<string>, words: seq<string>) {
    exists i, j :: 0 <= i < |risks| && 0 <= j < |words| && Text.Contains(Text.ToLower(risks[i]), words[j])
  }

  const FireWords: seq<string> := ["fire", "wildfire"]
  const DroughtWords: seq<string> := ["drought", "water"]
  const FloodWords: seq<string> := ["flood"]
  const StormWords: seq<string> := ["storm", "hurricane", "cyclone"]

  /** The number of locations whose risk factors mention one of `words`. */
  function Mentioning(locations: seq<Weather.Location>, words: seq<string>): (r: nat)
    ensures r <= |locations|
    ensures r == 0 <==> forall i :: 0 <= i < |locations| ==> !Mentions(locations[i].riskFactors, words)
  {
    if locations == [] then 0
    else
      var init := locations[..|locations| - 1];
      assert forall i :: 0 <= i < |init| ==> init[i] == locations[i];
      Mentioning(init, words) + (if Mentions(locations[|locations| - 1].riskFactors, words) then 1 else 0)
  }

  /** A hazard weight: one, plus a tenth for every location mentioning the hazard. */
  function Weight(locations: seq<Weather.Location>, words: seq<string>): (r: real)
    ensures 1.0 <= r <= 1.0 + 0.1 * |locations| as real
  {
    1.0 + 0.1 * Mentioning(locations, words) as real
  }

  datatype Weights = Weights(fire: real, drought: real, flood: real, storm: real)

  function WeightsOf(locations: seq<Weather.Location>): Weights {
    Weights(Weight(locations, FireWords), Weight(locations, DroughtWords),
            Weight(locations, FloodWords), Weight(locations, StormWords))
  }

  /** The `forEach` over the locations that accumulates the four weights. */
  method LocationWeights(locations: seq<Weather.Location>) returns (w: Weights)
    ensures w == WeightsOf(locations)
    ensures 1.0 <= w.fire && 1.0 <= w.drought && 1.0 <= w.flood && 1.0 <= w.storm
  {
    var fire, drought, flood, storm := 1.0, 1.0, 1.0, 1.0;
    for i := 0 to |locations|
      invariant fire == Weight(locations[..i], FireWords)
      invariant drought == Weight(locations[..i], DroughtWords)
      invariant flood == Weight(locations[..i], FloodWords)
      invariant storm == Weight(locations[..i], StormWords)
    {
      var risks := locations[i].riskFactors;
      assert locations[..i + 1][..i] == locations[..i];
      if Mentions(risks, FireWords) {
        fire := fire + 0.1;
      }
      if Mentions(risks, DroughtWords) {
        drought := drought + 0.1;
      }
      if Mentions(risks, FloodWords) {
        flood := flood + 0.1;
      }
      if Mentions(risks, StormWords) {
        storm := storm + 0.1;
      }
    }
    assert locations[..|locations|] == locations;
    w := Weights(fire, drought, flood, storm);
  }

  /** `Math.min(100, Math.round(base * weight * trend))`. */
  function Risk(base: nat, weight: real, trend: real): (r: int)
    ensures r <= 100 && r <= Weather.Round(base as real * weight * trend)
    ensures r == 100 || r == Weather.Round(base as real * weight * trend)
  {
    var v := Weather.Round(base as real * weight * trend);
    if v < 100 then v else 100
  }

  /** With a non-negative weight and trend the index stays in the documented range
      0..100. */
  lemma RiskInRange(base: nat, weight: real, trend: real)
    requires weight >= 0.0 && trend >= 0.0
    ensures 0 <= Risk(base, weight, trend) <= 100
  {
    assert base as real * weight >= 0.0;
    assert base as real * weight * trend >= 0.0;
  }

  /** The entry for the month `i` months back; `trend(i)` stands for
      `Math.pow(1.06, i / 12)`. */
  function Entry(currentMonth: nat, i: nat, w: Weights, trend: nat -> real): (r: RiskData)
    requires currentMonth < 12 && i < 12
    ensures r.month == MonthNames[MonthIndex(currentMonth, i)]
    ensures r.fire <= 100 && r.drought <= 100 && r.flood <= 100 && r.storm <= 100
  {
    var m := MonthIndex(currentMonth, i);
    RiskData(MonthNames[m],
      Risk(BaseFire(m), w.fire, trend(i)),
      Risk(BaseDrought(m), w.drought, trend(i)),
      Risk(BaseFlood(m), w.flood, trend(i)),
      Risk(BaseStorm(m), w.storm, trend(i)))
  }

  /** The model's eight entries, oldest first. */
  function ClimateModel(currentMonth: nat, w: Weights, trend: nat -> real): seq<RiskData>
    requires currentMonth < 12
  {
    LatestEntries(currentMonth, 8, w, trend)
  }

  /** The entries for the `n` months up to the current one, oldest first. */
  function LatestEntries(currentMonth: nat, n: nat, w: Weights, trend: nat -> real): (r: seq<RiskData>)
    requires currentMonth < 12 && n <= 12
    ensures |r| == n
  {
    if n == 0 then []
    else [Entry(currentMonth, n - 1, w, trend)] + LatestEntries(currentMonth, n - 1, w, trend)
  }

  /** Entry `j` of the `n` latest is the one for `n - 1 - j` months back. */
  lemma {:induction false} LatestEntriesAt(currentMonth: nat, n: nat, w: Weights, trend: nat -> real)
    requires currentMonth < 12 && n <= 12
    ensures forall j :: 0 <= j < n ==> LatestEntries(currentMonth, n, w, trend)[j] == Entry(currentMonth, n - 1 - j, w, trend)
  {
    if n > 0 {
      var rest := LatestEntries(currentMonth, n - 1, w, trend);
      LatestEntriesAt(currentMonth, n - 1, w, trend);
      assert LatestEntries(currentMonth, n, w, trend) == [Entry(currentMonth, n - 1, w, trend)] + rest;
    }
  }

  /** `getClimateModelData`: for the current month and the seven before it, compute the
      entry and put it in front of the list. */
  method GetClimateModelData(currentMonth: nat, locations: seq<Weather.Location>, trend: nat -> real)
    returns (data: seq<RiskData>)
    requires currentMonth < 12
    ensures data == ClimateModel(currentMonth, WeightsOf(locations), trend)
  {
    data := [];
    for i := 0 to 8
      invariant data == LatestEntries(currentMonth, i, WeightsOf(locations), trend)
    {
      var entry := MonthEntry(currentMonth, i, locations, trend);
      data := [entry] + data;
    }
  }

  /** One pass of the loop: the location weights, then the entry for `i` months back. */
  method MonthEntry(currentMonth: nat, i: nat, locations: seq<Weather.Location>, trend: nat -> real)
    returns (entry: RiskData)
    requires currentMonth < 12 && i < 12
    ensures entry == Entry(currentMonth, i, WeightsOf(locations), trend)
  {
    var w := LocationWeights(locations);
    entry := Entry(currentMonth, i, w, trend);
  }

  /** Eight entries, ending with the current month, entry `j` for the month `7 - j`
      months back, every index at most 100. */
  lemma ClimateModelShape(currentMonth: nat, w: Weights, trend: nat -> real)
    requires currentMonth < 12
    ensures var r := ClimateModel(currentMonth, w, trend);
            && |r| == 8
            && r[7].month == MonthNames[currentMonth]
            && (forall j :: 0 <= j < 8 ==> r[j].month == MonthNames[MonthIndex(currentMonth, 7 - j)])
            && (forall j :: 0 <= j < 8 ==> r[j].fire <= 100 && r[j].drought <= 100 && r[j].flood <= 100 && r[j].storm <= 100)
  {
    LatestEntriesAt(currentMonth, 8, w, trend);
  }

  /** The answer of the NOAA request: failure, a thrown error, or a payload. */
  datatype NoaaOutcome = NoaaFailed | NoaaError | NoaaOk(payload: string)

  /** `getClimateRiskData`: every outcome ends in the model data, since the payload is
      never read. */
  method GetClimateRiskData(outcome: NoaaOutcome, currentMonth: nat, locations: seq<Weather.Location>, trend: nat -> real)
    returns (data: seq<RiskData>)
    requires currentMonth < 12
    ensures data == ClimateModel(currentMonth, WeightsOf(locations), trend)
  {
    match outcome
    case NoaaOk(_) =>
      data := GetClimateModelData(currentMonth, locations, trend);
    case _ =>
      data := GetClimateModelData(currentMonth, locations, trend);
  }

  /** The hour `i` hours after eighteen hours before `currentHour`. */
  function HourOf(currentHour: nat, i: nat): (h: nat)
    requires currentHour < 24
    ensures h < 24
    ensures (h + 18) % 24 == (currentHour + i) % 24
  {
    (currentHour - 18 + i + 24) % 24
  }

  /** `${hour.toString().padStart(2, '0')}:00`. */
  function HourLabel(h: nat): (r: string)
    requires h < 24
    ensures |r| == 5 && r[2..] == ":00"
    ensures Decimal.AllDigits(r[..2])
  {
    var d := Decimal.NatToString(h);
    assert h >= 10 ==> d == Decimal.NatToString(h / 10) + [Decimal.DigitChar(h % 10)];
    (if |d| < 2 then "0" + d else d) + ":00"
  }

  /** `parseInt` reads the hour back from its label. */
  lemma HourLabelRoundTrip(h: nat)
    requires h < 24
    ensures Decimal.ParseInt(HourLabel(h)) == Some(h)
  {
    var r := HourLabel(h);
    if h < 10 {
      var c := Decimal.DigitChar(h);
      assert r == ['0', c] + ":00";
      assert Text.TrimStart(r) == r;
      Decimal.DigitPrefixStopsAtNonDigit(['0', c], ":00");
      assert ['0', c][..1] == ['0'];
      assert ['0'][..0] == [];
      assert Decimal.DigitsValue(['0']) == 0;
      assert Decimal.DigitsValue(['0', c]) == h;
    } else {
      assert r == Decimal.NatToString(h) + ":00";
      Decimal.ParseIntOfDecimal(h, ":00");
    }
  }

  datatype TemperaturePoint = TemperaturePoint(time: string, temp: int, avg: real)

  /** The temperature curve: `daySwing(h)` stands for `Math.round(8 * sin(π(h - 6)/12))`
      and `nightDrop(h)` for `Math.round(5 * (1 - cos(π(h - 18)/12)))`. */
  function BaseTemperature(h: nat, daySwing: int -> int, nightDrop: int -> int): int {
    if 6 <= h <= 18 then 26 + daySwing(h) else 26 - nightDrop(h)
  }

  /** The point of the `k`-th step; `noise[k]` is its `Math.random()` draw. */
  function TemperatureAt(currentHour: nat, k: nat, daySwing: int -> int, nightDrop: int -> int, noise: seq<real>): (p: TemperaturePoint)
    requires currentHour < 24 && k < |noise|
    ensures p.time == HourLabel(HourOf(currentHour, 4 * k))
    ensures 0.0 <= noise[k] < 1.0 ==> p.temp as real - 4.0 < p.avg <= p.temp as real - 2.0
  {
    var hour := HourOf(currentHour, 4 * k);
    var temp := BaseTemperature(hour, daySwing, nightDrop);
    TemperaturePoint(HourLabel(hour), temp, temp as real - 2.0 - noise[k] * 2.0)
  }

  /** `getTemperatureData`: six points four hours apart, from eighteen hours before the
      current hour to two hours after it. */
  method GetTemperatureData(currentHour: nat, daySwing: int -> int, nightDrop: int -> int, noise: seq<real>)
    returns (data: seq<TemperaturePoint>)
    requires currentHour < 24 && |noise| == 6
    ensures |data| == 6
    ensures forall k :: 0 <= k < 6 ==> data[k] == TemperatureAt(currentHour, k, daySwing, nightDrop, noise)
  {
    data := [];
    var i := 0;
    while i < 24
      invariant i % 4 == 0 && i <= 24
      invariant |data| == i / 4
      invariant forall k :: 0 <= k < |data| ==> data[k] == TemperatureAt(currentHour, k, daySwing, nightDrop, noise)
    {
      var hour := HourOf(currentHour, i);
      var temp := BaseTemperature(hour, daySwing, nightDrop);
      var avg := temp as real - 2.0 - noise[i / 4] * 2.0;
      data := data + [TemperaturePoint(HourLabel(hour), temp, avg)];
      i := i + 4;
    }
  }

  /** The first point is eighteen hours before the current hour and the last two hours
      after it. */
  lemma TemperatureSpan(currentHour: nat)
    requires currentHour < 24
    ensures (HourOf(currentHour, 0) + 18) % 24 == currentHour
    ensures HourOf(currentHour, 20) == (currentHour + 2) % 24
  {
  }
}
