/** `frontend/src/components/ClimateAlerts.tsx`: the six alerts, the severity and type
    filters of the alert list, the three counters and the severity styles. */
module ClimateAlerts {
  import Text
  import Seqs

  datatype Alert = Alert(id: nat, alertType: string, severity: string, location: string,
                         temperature: int, humidity: int, windSpeed: int)

  const Alerts: seq<Alert> := [
    Alert(1, "Wildfire Risk", "critical", "California, USA", 42, 15, 45),
    Alert(2, "Drought Warning", "high", "East Africa", 35, 25, 12),
    Alert(3, "Flood Risk", "medium", "Bangladesh", 28, 85, 25),
    Alert(4, "Heat Wave", "high", "Southern Europe", 43, 30, 8),
    Alert(5, "Deforestation Alert", "critical", "Amazon Basin, Brazil", 32, 70, 15),
    Alert(6, "Storm Warning", "medium", "Caribbean Sea", 29, 75, 65)
  ]

  /** The severities both style functions know. */
  const KnownSeverities: set<string> := {"critical", "high", "medium", "low"}

  const DefaultColor := "border-slate-500/50 bg-slate-500/10 text-slate-400"
  const DefaultBadge := "bg-slate-500/20 text-slate-400 border-slate-500/30"

  /** `getSeverityColor`: the card style of a severity, slate for any other. */
  function SeverityColor(severity: string): (r: string)
    ensures r == DefaultColor <==> severity !in KnownSeverities
  {
    match severity
    case "critical" => "border-red-500/50 bg-red-500/10 text-red-400"
    case "high" => "border-orange-500/50 bg-orange-500/10 text-orange-400"
    case "medium" => "border-yellow-500/50 bg-yellow-500/10 text-yellow-400"
    case "low" => "border-blue-500/50 bg-blue-500/10 text-blue-400"
    case _ => DefaultColor
  }

  /** `getSeverityBadge`: the badge style of a severity, slate for any other. */
  function SeverityBadge(severity: string): (r: string)
    ensures r == DefaultBadge <==> severity !in KnownSeverities
  {
    match severity
    case "critical" => "bg-red-500/20 text-red-400 border-red-500/30"
    case "high" => "bg-orange-500/20 text-orange-400 border-orange-500/30"
    case "medium" => "bg-yellow-500/20 text-yellow-400 border-yellow-500/30"
    case "low" => "bg-blue-500/20 text-blue-400 border-blue-500/30"
    case _ => DefaultBadge
  }

  /** The card and its badge fall back to slate together. */
  lemma StylesAgree(severity: string)
    ensures SeverityColor(severity) == DefaultColor <==> SeverityBadge(severity) == DefaultBadge
  {
  }

  /** The test of `filteredAlerts`: the severity is the selected one (or "all" is
      selected) and the lower-cased type includes the lower-cased selected type (or
      "all" is selected). */
  predicate Matches(selectedSeverity: string, selectedType: string, alert: Alert) {
    && (selectedSeverity == "all" || alert.severity == selectedSeverity)
    && (selectedType == "all" || Text.Contains(Text.ToLower(alert.alertType), Text.ToLower(selectedType)))
  }

  function Shown(selectedSeverity: string, selectedType: string): Alert -> bool {
    (a: Alert) => Matches(selectedSeverity, selectedType, a)
  }

  /** `filteredAlerts`. */
  function FilteredAlerts(alerts: seq<Alert>, selectedSeverity: string, selectedType: string): (r: seq<Alert>)
    ensures Seqs.IsSubsequence(r, alerts)
    ensures forall i :: 0 <= i < |r| ==> Matches(selectedSeverity, selectedType, r[i])
    ensures forall i :: 0 <= i < |alerts| && Matches(selectedSeverity, selectedType, alerts[i]) ==> alerts[i] in r
    ensures forall a :: a in r ==> a in alerts
  {
    Seqs.FilterMembers(alerts, Shown(selectedSeverity, selectedType));
    Seqs.Filter(alerts, Shown(selectedSeverity, selectedType))
  }

  /** With both filters on "all" every alert is shown, in order. */
  lemma AllShowsEveryAlert(alerts: seq<Alert>)
    ensures FilteredAlerts(alerts, "all", "all") == alerts
  {
    Seqs.FilterAll(alerts, Shown("all", "all"));
  }

  function SeverityIs(severity: string): Alert -> bool {
    (a: Alert) => a.severity == severity
  }

  /** With the type filter on "all", the severity filter alone decides. */
  lemma SeverityFilterAlone(alerts: seq<Alert>, severity: string)
    requires severity != "all"
    ensures FilteredAlerts(alerts, severity, "all") == Seqs.Filter(alerts, SeverityIs(severity))
  {
    Seqs.FilterSameTest(alerts, Shown(severity, "all"), SeverityIs(severity));
  }

  /** The three counters of the header cards. */
  datatype Counters = Counters(criticalCount: nat, highCount: nat, activeCount: nat)

  function Count(alerts: seq<Alert>): (r: Counters)
    ensures r.activeCount == |alerts|
  {
    Counters(|Seqs.Filter(alerts, SeverityIs("critical"))|, |Seqs.Filter(alerts, SeverityIs("high"))|, |alerts|)
  }

  /** Critical and high alerts are different alerts, so together they are never more
      than the active ones; each count is what the severity filter lists. */
  lemma CountersBounded(alerts: seq<Alert>)
    ensures var c := Count(alerts);
            && c.criticalCount + c.highCount <= c.activeCount
            && c.criticalCount == |FilteredAlerts(alerts, "critical", "all")|
            && c.highCount == |FilteredAlerts(alerts, "high", "all")|
  {
    Seqs.FilterDisjointLengths(alerts, SeverityIs("critical"), SeverityIs("high"));
    SeverityFilterAlone(alerts, "critical");
    SeverityFilterAlone(alerts, "high");
  }

  /** The part of a filter's result one alert contributes. */
  function Kept(a: Alert, p: Alert -> bool): seq<Alert> {
    if p(a) then [a] else []
  }

  /** Filtering a list of six alerts, one alert at a time. */
  lemma FilterSix(s: seq<Alert>, p: Alert -> bool)
    requires |s| == 6
    ensures Seqs.Filter(s, p) ==
              Kept(s[0], p) + (Kept(s[1], p) + (Kept(s[2], p) + (Kept(s[3], p) + (Kept(s[4], p) + Kept(s[5], p)))))
  {
    var t1 := s[1..];
    var t2 := t1[1..];
    var t3 := t2[1..];
    var t4 := t3[1..];
    var t5 := t4[1..];
    assert t5[1..] == [];
    assert Seqs.Filter(t5, p) == Kept(s[5], p);
    assert Seqs.Filter(t4, p) == Kept(s[4], p) + Seqs.Filter(t5, p);
    assert Seqs.Filter(t3, p) == Kept(s[3], p) + Seqs.Filter(t4, p);
    assert Seqs.Filter(t2, p) == Kept(s[2], p) + Seqs.Filter(t3, p);
    assert Seqs.Filter(t1, p) == Kept(s[1], p) + Seqs.Filter(t2, p);
    assert Seqs.Filter(s, p) == Kept(s[0], p) + Seqs.Filter(t1, p);
  }

  /** The six alerts give two critical, two high and six active. */
  lemma AlertCounters()
    ensures Count(Alerts) == Counters(2, 2, 6)
  {
    FilterSix(Alerts, SeverityIs("critical"));
    FilterSix(Alerts, SeverityIs("high"));
  }

  /** Types are matched by substring: "heat" selects the heat wave and nothing else. */
  lemma HeatSelectsHeatWave()
    ensures FilteredAlerts(Alerts, "all", "heat") == [Alerts[3]]
  {
    var m := Shown("all", "heat");
    HeatKeyword();
    FilterSix(Alerts, m);
  }

  lemma HeatKeyword()
    ensures var m := Shown("all", "heat");
            !m(Alerts[0]) && !m(Alerts[1]) && !m(Alerts[2]) && m(Alerts[3]) && !m(Alerts[4]) && !m(Alerts[5])
  {
    HeatIn(0);
    HeatIn(1);
    HeatIn(2);
    HeatIn(3);
    HeatIn(4);
    HeatIn(5);
  }

  /** Of the six alert types only "Heat Wave" includes "heat". */
  lemma HeatIn(k: nat)
    requires k < |Alerts|
    ensures Text.Contains(Text.ToLower(Alerts[k].alertType), Text.ToLower("heat")) <==> k == 3
  {
    var t := Alerts[k].alertType;
    assert Text.ToLower("heat") == "heat";
    if k == 3 {
      assert Text.ToLower(t) == "heat wave";
      Text.ContainsPrefix("heat wave", "heat");
    } else if k == 1 {
      assert t == "Drought Warning";
      NoHeat(t, 1);
    } else {
      assert t in {"Wildfire Risk", "Flood Risk", "Deforestation Alert", "Storm Warning"};
      NoHeat(t, 0);
    }
  }

  /** "heat" does not occur in the lower-case form of `s` when its `k`-th letter is
      missing from every position where it would have to be. */
  lemma NoHeat(s: string, k: nat)
    requires k < 4
    requires forall j :: k <= j && j - k + 4 <= |s| ==> Text.LowerChar(s[j]) != "heat"[k]
    ensures !Text.Contains(Text.ToLower(s), "heat")
  {
    Text.NotContainsByChar(Text.ToLower(s), "heat", k);
  }
}
