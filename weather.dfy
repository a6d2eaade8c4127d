/** `frontend/src/utils/weather.ts`: the monitored locations, the severity, alert-type
    and icon mappings, and how `getWeatherData` turns the National Weather Service
    answers for a location into alerts. The three HTTP calls are one parameter, the
    outcome of the calls; time stamps, identifiers and the random humidity are left
    out. */
module Weather {
  import opened Wrappers
  import Text

  // Severity levels of the application.
  const Critical := "critical"
  const High := "high"
  const Medium := "medium"
  const Low := "low"

  // Alert types synthesised from the forecast.
  const ExtremeHeat := "Extreme Heat Warning"
  const Freezing := "Freezing Conditions"
  const HighWind := "High Wind Advisory"
  const Advisory := "Weather Advisory"

  // Icons, as the code points of the emoji the source returns.
  const WarningIcon := "\U{26A0}\U{FE0F}"
  const FireIcon := "\U{1F525}"
  const WaveIcon := "\U{1F30A}"
  const StormIcon := "\U{26C8}\U{FE0F}"
  const WindIcon := "\U{1F4A8}"
  const SnowIcon := "\U{2744}\U{FE0F}"
  const IceIcon := "\U{1F9CA}"
  const FogIcon := "\U{1F32B}\U{FE0F}"
  const TornadoIcon := "\U{1F32A}\U{FE0F}"
  const CycloneIcon := "\U{1F300}"
  const SunIcon := "\U{2600}\U{FE0F}"

  datatype Location = Location(
    id: nat, name: string, region: string, lat: real, lon: real,
    riskFactors: seq<string>, description: string)

  const MonitoredLocations: seq<Location> := [
    Location(1, "California", "Western United States", 36.7783, -119.4179,
      ["Wildfires", "Drought", "Heat Waves"],
      "Major agricultural region facing severe climate challenges"),
    Location(2, "Amazon Rainforest", "South America", -3.4653, -62.2159,
      ["Deforestation", "Biodiversity Loss", "Fires"],
      "World's largest rainforest, crucial for global climate"),
    Location(3, "Great Barrier Reef", "Australia", -18.2871, 147.6992,
      ["Coral Bleaching", "Ocean Acidification", "Rising Temperatures"],
      "Largest coral reef system threatened by climate change"),
    Location(4, "Sahel Region", "North Africa", 14.4974, 12.1000,
      ["Desertification", "Drought", "Food Security"],
      "Transitional zone vulnerable to climate variability"),
    Location(5, "Arctic Circle", "Arctic", 66.5622, -35.2744,
      ["Ice Melt", "Permafrost Thaw", "Ecosystem Disruption"],
      "Polar region experiencing rapid warming"),
    Location(6, "Maldives", "Indian Ocean", 3.2028, 73.2207,
      ["Sea Level Rise", "Coral Bleaching", "Extreme Weather"],
      "Low-lying island nation threatened by rising seas"),
    Location(7, "Bangladesh Delta", "South Asia", 23.6850, 90.3563,
      ["Flooding", "Cyclones", "Sea Level Rise"],
      "Densely populated delta vulnerable to climate impacts"),
    Location(8, "Mediterranean Basin", "Southern Europe", 41.2020, 17.8083,
      ["Heat Waves", "Water Scarcity", "Wildfires"],
      "Region experiencing increasing climate extremes")
  ]

  /** `Array.prototype.find` on the name: the first location called `name`. */
  function FindLocationIn(locations: seq<Location>, name: string): (r: Option<Location>)
    ensures r.Some? ==> r.value in locations && r.value.name == name
    ensures r.None? <==> forall i :: 0 <= i < |locations| ==> locations[i].name != name
    ensures r.Some? ==> exists k :: (0 <= k < |locations| && locations[k] == r.value
                                     && forall i :: 0 <= i < k ==> locations[i].name != name)
  {
    if locations == [] then None
    else if locations[0].name == name then Some(locations[0])
    else
      var r := FindLocationIn(locations[1..], name);
      assert forall i :: 1 <= i < |locations| ==> locations[i] == locations[1..][i - 1];
      r
  }

  function FindLocation(name: string): Option<Location> {
    FindLocationIn(MonitoredLocations, name)
  }

  /** `mapSeverity`: the lower-cased level word, matched as a whole. */
  function MapSeverity(nwsSeverity: string): (r: string)
    ensures r in {Critical, High, Medium, Low}
    ensures r == Low <==> Text.ToLower(nwsSeverity) !in {"extreme", "severe", "moderate", "minor"}
  {
    var s := Text.ToLower(nwsSeverity);
    if s == "extreme" || s == "severe" then Critical
    else if s == "moderate" then High
    else if s == "minor" then Medium
    else Low
  }

  /** `mapNWSSeverity`: a missing or empty level is medium; otherwise the first level word
      the lower-cased text contains decides, and low when it contains none. */
  function MapNwsSeverity(severity: Option<string>): (r: string)
    ensures r in {Critical, High, Medium, Low}
    ensures !Text.Truthy(severity) ==> r == Medium
  {
    if !Text.Truthy(severity) then Medium
    else
      var s := Text.ToLower(severity.value);
      if Text.Contains(s, "extreme") then Critical
      else if Text.Contains(s, "severe") then Critical
      else if Text.Contains(s, "moderate") then High
      else if Text.Contains(s, "minor") then Medium
      else Low
  }

  /** On the four level words themselves, in any letter case, the substring mapping of
      `mapNWSSeverity` agrees with the whole-word mapping of `mapSeverity`. */
  lemma NwsSeverityAgreesOnLevelWords(s: string)
    requires Text.ToLower(s) in {"extreme", "severe", "moderate", "minor"}
    ensures MapNwsSeverity(Some(s)) == MapSeverity(s)
  {
    var l := Text.ToLower(s);
    Text.ContainsPrefix(l, l);
    if l == "severe" {
      Text.NotContainsLonger(l, "extreme");
    } else if l == "moderate" {
      Text.NotContainsByHead(l, "extreme");
      Text.NotContainsByHead(l, "severe");
    } else if l == "minor" {
      Text.NotContainsLonger(l, "extreme");
      Text.NotContainsLonger(l, "severe");
      Text.NotContainsLonger(l, "moderate");
    }
  }

  /** A non-empty level containing none of the words is low under both mappings. */
  lemma NwsSeverityWithoutLevelWord(s: string)
    requires s != ""
    requires forall w :: w in ["extreme", "severe", "moderate", "minor"] ==> !Text.Contains(Text.ToLower(s), w)
    ensures MapNwsSeverity(Some(s)) == Low && MapSeverity(s) == Low
  {
    var l := Text.ToLower(s);
    Text.ContainsPrefix(l, l);
    assert !Text.Contains(l, "extreme") && !Text.Contains(l, "severe");
    assert !Text.Contains(l, "moderate") && !Text.Contains(l, "minor");
  }

  /** Both severity mappings ignore letter case. */
  lemma SeverityIgnoresCase(s: string)
    ensures MapNwsSeverity(Some(Text.ToLower(s))) == MapNwsSeverity(Some(s))
    ensures MapSeverity(Text.ToLower(s)) == MapSeverity(s)
  {
    Text.ToLowerIdempotent(s);
  }

  /** `n > threshold` on a JavaScript number that may be NaN (`None`): every
      comparison with NaN is false. */
  predicate Above(n: Option<int>, threshold: int) {
    n.Some? && n.value > threshold
  }

  /** The condition under which `getWeatherData` synthesises an alert from the forecast. */
  predicate AlertWarranted(tempF: int, windKmh: Option<int>) {
    tempF > 95 || tempF < 32 || Above(windKmh, 40)
  }

  /** `getAlertTypeFromConditions`: heat, then frost, then wind, checked in that order. */
  function AlertTypeFromConditions(tempF: int, windKmh: Option<int>): (r: string)
    ensures r in {ExtremeHeat, Freezing, HighWind, Advisory}
    ensures r == Advisory <==> !AlertWarranted(tempF, windKmh)
    ensures r == ExtremeHeat <==> tempF > 95
    ensures r == Freezing <==> tempF < 32
  {
    if tempF > 95 then ExtremeHeat
    else if tempF < 32 then Freezing
    else if Above(windKmh, 40) then HighWind
    else Advisory
  }

  /** `getSeverityFromConditions`: critical past the outer thresholds, high past the
      inner ones, medium otherwise. */
  function SeverityFromConditions(tempF: int, windKmh: Option<int>): (r: string)
    ensures r in {Critical, High, Medium}
    ensures r == Medium <==> !AlertWarranted(tempF, windKmh)
  {
    if tempF > 100 || tempF < 10 || Above(windKmh, 60) then Critical
    else if tempF > 95 || tempF < 32 || Above(windKmh, 40) then High
    else Medium
  }

  function SeverityRank(s: string): nat {
    if s == Critical then 3 else if s == High then 2 else if s == Medium then 1 else 0
  }

  /** More wind never lowers the severity, and a NaN wind speed weighs like no wind. */
  lemma SeverityMonotoneInWind(tempF: int, w1: int, w2: int)
    requires w1 <= w2
    ensures SeverityRank(SeverityFromConditions(tempF, Some(w1))) <= SeverityRank(SeverityFromConditions(tempF, Some(w2)))
    ensures SeverityRank(SeverityFromConditions(tempF, None)) <= SeverityRank(SeverityFromConditions(tempF, Some(w1)))
  {
  }

  /** Whenever an alert is synthesised, its severity is critical or high and its type is
      never the generic advisory. */
  lemma SynthesisedAlertIsSevere(tempF: int, windKmh: Option<int>)
    requires AlertWarranted(tempF, windKmh)
    ensures SeverityFromConditions(tempF, windKmh) in {Critical, High}
    ensures AlertTypeFromConditions(tempF, windKmh) != Advisory
  {
  }

  /** `getWeatherIcon`: a warning sign for a missing or empty event; otherwise the first
      keyword group the lower-cased event contains picks the icon. */
  function WeatherIcon(event: Option<string>): (r: string)
    ensures r in {WarningIcon, FireIcon, WaveIcon, StormIcon, WindIcon, SnowIcon, IceIcon,
                  FogIcon, TornadoIcon, CycloneIcon, SunIcon}
    ensures !Text.Truthy(event) ==> r == WarningIcon
  {
    if !Text.Truthy(event) then WarningIcon
    else
      var e := Text.ToLower(event.value);
      if Text.Contains(e, "heat") || Text.Contains(e, "hot") then FireIcon
      else if Text.Contains(e, "flood") || Text.Contains(e, "rain") then WaveIcon
      else if Text.Contains(e, "storm") || Text.Contains(e, "thunder") then StormIcon
      else if Text.Contains(e, "wind") || Text.Contains(e, "gale") then WindIcon
      else if Text.Contains(e, "snow") || Text.Contains(e, "blizzard") then SnowIcon
      else if Text.Contains(e, "ice") || Text.Contains(e, "freez") then IceIcon
      else if Text.Contains(e, "fog") then FogIcon
      else if Text.Contains(e, "tornado") then TornadoIcon
      else if Text.Contains(e, "hurricane") || Text.Contains(e, "cyclone") then CycloneIcon
      else if Text.Contains(e, "fire") then FireIcon
      else if Text.Contains(e, "drought") then SunIcon
      else WarningIcon
  }

  /** The icon ignores letter case. */
  lemma WeatherIconIgnoresCase(s: string)
    ensures WeatherIcon(Some(Text.ToLower(s))) == WeatherIcon(Some(s))
  {
    Text.ToLowerIdempotent(s);
  }

  /** The icons of the synthesised alert types: fire for heat, ice for frost, wind for
      wind; earlier keyword groups do not capture them. */
  lemma SynthesisedAlertIcon(tempF: int, windKmh: Option<int>)
    requires AlertWarranted(tempF, windKmh)
    ensures var t := AlertTypeFromConditions(tempF, windKmh);
            WeatherIcon(Some(t)) == (if t == ExtremeHeat then FireIcon
                                     else if t == Freezing then IceIcon
                                     else WindIcon)
  {
    var t := AlertTypeFromConditions(tempF, windKmh);
    if t == ExtremeHeat {
      ExtremeHeatIcon();
    } else if t == Freezing {
      FreezingIcon();
    } else {
      HighWindIcon();
    }
  }

  lemma FreezingIcon()
    ensures WeatherIcon(Some(Freezing)) == IceIcon
  {
    var e := Text.ToLower(Freezing);
    LowerFreezing();
    FreezingLacksFirstKeywords();
    FreezingLacksLaterKeywords();
    Text.ContainsPrefix(e, "freez");
  }

  lemma FreezingLacksFirstKeywords()
    ensures var e := "freezing conditions";
            !Text.Contains(e, "heat") && !Text.Contains(e, "hot") && !Text.Contains(e, "flood")
            && !Text.Contains(e, "rain") && !Text.Contains(e, "storm")
  {
    var e := "freezing conditions";
    Text.NotContainsByHead(e, "heat");
    Text.NotContainsByHead(e, "hot");
    Text.NotContainsByChar(e, "flood", 1);
    Text.NotContainsByChar(e, "rain", 1);
    Text.NotContainsByChar(e, "storm", 4);
  }

  lemma FreezingLacksLaterKeywords()
    ensures var e := "freezing conditions";
            !Text.Contains(e, "thunder") && !Text.Contains(e, "wind") && !Text.Contains(e, "gale")
            && !Text.Contains(e, "snow") && !Text.Contains(e, "blizzard")
  {
    var e := "freezing conditions";
    Text.NotContainsByHead(e, "thunder");
    Text.NotContainsByHead(e, "wind");
    Text.NotContainsByChar(e, "gale", 1);
    Text.NotContainsByChar(e, "snow", 3);
    Text.NotContainsByHead(e, "blizzard");
  }

  lemma HighWindIcon()
    ensures WeatherIcon(Some(HighWind)) == WindIcon
  {
    var e := Text.ToLower(HighWind);
    LowerHighWind();
    HighWindLacksFirstKeywords();
    assert e[5..9] == "wind";
    Text.ContainsAt(e, "wind", 5);
  }

  lemma LowerExtremeHeat()
    ensures Text.ToLower(ExtremeHeat) == "extreme heat warning"
  {
  }

  lemma LowerFreezing()
    ensures Text.ToLower(Freezing) == "freezing conditions"
  {
  }

  lemma LowerHighWind()
    ensures Text.ToLower(HighWind) == "high wind advisory"
  {
  }

  lemma HighWindLacksFirstKeywords()
    ensures var e := "high wind advisory";
            !Text.Contains(e, "heat") && !Text.Contains(e, "hot") && !Text.Contains(e, "flood")
            && !Text.Contains(e, "rain") && !Text.Contains(e, "storm") && !Text.Contains(e, "thunder")
  {
    var e := "high wind advisory";
    Text.NotContainsByChar(e, "heat", 1);
    Text.NotContainsByChar(e, "hot", 2);
    Text.NotContainsByHead(e, "flood");
    Text.NotContainsByHead(e, "rain");
    Text.NotContainsByChar(e, "storm", 1);
    Text.NotContainsByHead(e, "thunder");
  }

  lemma ExtremeHeatIcon()
    ensures WeatherIcon(Some(ExtremeHeat)) == FireIcon
  {
    var e := Text.ToLower(ExtremeHeat);
    LowerExtremeHeat();
    assert e[8..12] == "heat";
    Text.ContainsAt(e, "heat", 8);
  }

  /** `Math.round` (section 21.3.2.28 of ECMA-262): the nearest integer, halves upward. */
  function Round(x: real): (r: int)
    ensures r as real - 0.5 <= x < r as real + 0.5
  {
    (x + 0.5).Floor
  }

  /** `Math.round(windSpeed * 1.60934)`, miles per hour to kilometres per hour; a NaN
      speed (`None`) stays NaN. */
  function WindKmh(mph: Option<real>): Option<int> {
    if mph.None? then None else Some(Round(mph.value * 1.60934))
  }

  /** The first forecast period: temperature in degrees Fahrenheit, and the wind speed
      as the number `*` makes of the period's `windSpeed` field. The service sends that
      field as text with a unit ("10 mph"), which `*` turns into NaN (`None`); a plain
      number stands for a field the multiplication can read. */
  datatype Forecast = Forecast(temperature: int, windSpeed: Option<real>, detailedForecast: string)

  /** The fields of an NWS alert feature the code reads. */
  datatype NwsFeature = NwsFeature(
    event: Option<string>, severity: Option<string>,
    headline: Option<string>, description: Option<string>)

  /** The outcome of the points, forecast and alerts requests: any failure, or the first
      forecast period and the alert features (none when the field is missing). */
  datatype NwsOutcome = NwsFailed | NwsOk(forecast: Forecast, features: seq<NwsFeature>)

  datatype WeatherAlert = WeatherAlert(
    alertType: string, severity: string, location: string, description: string,
    affectedArea: string, icon: string, temperature: int, windSpeed: Option<int>)

  /** The alert built from one NWS feature. Its temperature is the forecast's, in
      degrees Fahrenheit. */
  function NwsAlert(loc: Location, fc: Forecast, f: NwsFeature): (a: WeatherAlert)
    ensures a.location == loc.name && a.affectedArea == loc.region
    ensures a.severity == MapNwsSeverity(f.severity) && a.icon == WeatherIcon(f.event)
    ensures a.alertType == Text.OrElse(f.event, "Weather Alert")
  {
    WeatherAlert(
      Text.OrElse(f.event, "Weather Alert"),
      MapNwsSeverity(f.severity),
      loc.name,
      Text.OrElse(f.headline, Text.OrElse(f.description, "Weather alert for this area")),
      loc.region,
      WeatherIcon(f.event),
      fc.temperature,
      WindKmh(fc.windSpeed))
  }

  /** The alert synthesised from the forecast when the conditions warrant one. Its
      temperature is converted to degrees Celsius. */
  function SynthesisedAlert(loc: Location, fc: Forecast): (r: Option<WeatherAlert>)
    ensures r.Some? <==> AlertWarranted(fc.temperature, WindKmh(fc.windSpeed))
    ensures r.Some? ==> r.value.location == loc.name && r.value.affectedArea == loc.region
  {
    var tempF := fc.temperature;
    var windKmh := WindKmh(fc.windSpeed);
    if AlertWarranted(tempF, windKmh) then
      var alertType := AlertTypeFromConditions(tempF, windKmh);
      Some(WeatherAlert(
        alertType,
        SeverityFromConditions(tempF, windKmh),
        loc.name,
        alertType + " in " + loc.name + ": " + fc.detailedForecast,
        loc.region,
        WeatherIcon(Some(alertType)),
        Round((tempF - 32) as real * 5.0 / 9.0),
        windKmh))
    else None
  }

  /** `getWeatherData` over a table of locations: a name that is not in the table or
      any failed request gives no alerts; the NWS alerts when there are any; otherwise
      at most the synthesised one. */
  function AlertsAt(locations: seq<Location>, location: string, nws: NwsOutcome): (r: seq<WeatherAlert>)
    ensures forall i :: 0 <= i < |r| ==> r[i].location == location
  {
    match FindLocationIn(locations, location)
    case None => []
    case Some(loc) =>
      match nws
      case NwsFailed => []
      case NwsOk(fc, features) =>
        var alerts := seq(|features|, i requires 0 <= i < |features| => NwsAlert(loc, fc, features[i]));
        if alerts != [] then alerts
        else
          match SynthesisedAlert(loc, fc)
          case None => []
          case Some(a) => [a]
  }

  /** `getWeatherData` on the monitored locations. */
  function GetWeatherData(location: string, nws: NwsOutcome): seq<WeatherAlert> {
    AlertsAt(MonitoredLocations, location, nws)
  }

  /** A name that is not in the table gives no alerts, whatever the service answers. */
  lemma UnknownLocationHasNoAlerts(locations: seq<Location>, location: string, nws: NwsOutcome)
    requires forall i :: 0 <= i < |locations| ==> locations[i].name != location
    ensures AlertsAt(locations, location, nws) == []
  {
  }

  /** A failed request gives no alerts. */
  lemma FailedRequestHasNoAlerts(locations: seq<Location>, location: string)
    ensures AlertsAt(locations, location, NwsFailed) == []
  {
  }

  /** When the service reports alerts, the result is exactly one alert per feature, in
      order, each carrying the first location of that name, and nothing is
      synthesised. */
  lemma NwsAlertsArePassedThrough(locations: seq<Location>, loc: Location, fc: Forecast, features: seq<NwsFeature>)
    requires FindLocationIn(locations, loc.name) == Some(loc) && features != []
    ensures var r := AlertsAt(locations, loc.name, NwsOk(fc, features));
            && |r| == |features|
            && forall i :: 0 <= i < |r| ==> r[i] == NwsAlert(loc, fc, features[i])
  {
  }

  /** Without service alerts, an alert is synthesised exactly when the forecast warrants
      one; it is then the only alert, critical or high, never the generic advisory, and
      it carries the area of the location. */
  lemma SynthesisOnlyWithoutNwsAlerts(locations: seq<Location>, loc: Location, fc: Forecast)
    requires FindLocationIn(locations, loc.name) == Some(loc)
    ensures var r := AlertsAt(locations, loc.name, NwsOk(fc, []));
            && |r| <= 1
            && (|r| == 1 <==> AlertWarranted(fc.temperature, WindKmh(fc.windSpeed)))
            && (|r| == 1 ==> r[0].severity in {Critical, High} && r[0].alertType != Advisory
                             && r[0].affectedArea == loc.region)
  {
    if AlertWarranted(fc.temperature, WindKmh(fc.windSpeed)) {
      SynthesisedAlertIsSevere(fc.temperature, WindKmh(fc.windSpeed));
    }
  }

  /** With the wind speed the service actually sends, text that `*` reads as NaN, the
      wind never causes an alert: one is synthesised exactly when the temperature is
      past a threshold, and it is never the high-wind advisory. */
  lemma TextWindNeverWarns(loc: Location, fc: Forecast)
    requires fc.windSpeed.None?
    ensures SynthesisedAlert(loc, fc).Some? <==> fc.temperature > 95 || fc.temperature < 32
    ensures SynthesisedAlert(loc, fc).Some? ==>
              SynthesisedAlert(loc, fc).value.alertType != HighWind && SynthesisedAlert(loc, fc).value.windSpeed.None?
  {
  }
}
