/** `frontend/src/components/BiodiversityAnalytics.tsx`: the front end's status
    normaliser (which, unlike the back end's, wants both "critically" and "endangered"
    for the critically endangered label), the conservation-status chart data with its
    colours, and the GBIF counts per category. A failed request rejects the promise,
    which is `None` here. */
module BiodiversityAnalytics {
  import opened Wrappers
  import Text
  import Seqs
  import Histogram
  import Species
  import Analytics

  /** A GBIF category with the colour of its bar. */
  datatype ColoredCategory = ColoredCategory(name: string, taxonKey: nat, color: string)

  const SpeciesCategories: seq<ColoredCategory> := [
    ColoredCategory("Birds", 212, "#3b82f6"),
    ColoredCategory("Mammals", 359, "#10b981"),
    ColoredCategory("Reptiles", 358, "#f59e0b"),
    ColoredCategory("Amphibians", 131, "#ef4444"),
    ColoredCategory("Fish", 777, "#8b5cf6"),
    ColoredCategory("Insects", 216, "#06b6d4")
  ]

  function Uncolored(categories: seq<ColoredCategory>): (r: seq<Species.SpeciesCategory>)
    ensures |r| == |categories|
    ensures forall i :: 0 <= i < |r| ==> r[i] == Species.SpeciesCategory(categories[i].name, categories[i].taxonKey)
  {
    seq(|categories|, i requires 0 <= i < |categories| => Species.SpeciesCategory(categories[i].name, categories[i].taxonKey))
  }

  /** The front end asks for the same categories, in the same order, as the back ends. */
  lemma SameCategoriesAsBackEnd()
    ensures Uncolored(SpeciesCategories) == Species.SpeciesCategories
  {
  }

  /** `fetchGBIFCounts`: the back ends' loop over the front end's categories. */
  method FetchGbifCounts(fetch: nat -> Species.GbifAnswer) returns (r: Option<seq<Species.CategoryCount>>)
    ensures r == Species.GbifCounts(Species.SpeciesCategories, fetch)
  {
    SameCategoriesAsBackEnd();
    r := Species.FetchGbifCounts(Uncolored(SpeciesCategories), fetch);
  }

  /** `formatStatus` of the front end. */
  function FormatStatus(rawStatus: string): (r: string)
    ensures r in Species.Labels
  {
    var lower := Text.ToLower(rawStatus);
    if Text.Contains(lower, "least") then Species.LeastConcern
    else if Text.Contains(lower, "near") then Species.NearThreatened
    else if Text.Contains(lower, "vulnerable") then Species.Vulnerable
    else if Text.Contains(lower, "endangered") && Text.Contains(lower, "critically") then Species.CriticallyEndangered
    else if Text.Contains(lower, "endangered") then Species.Endangered
    else Species.Unknown
  }

  /** The two normalisers agree except on a status that mentions "critically" but not
      "endangered" (and none of the earlier keywords): the back end says critically
      endangered, the front end unknown. */
  lemma NormalisersAgree(s: string)
    ensures FormatStatus(s) != Analytics.FormatStatus(s) <==>
              var l := Text.ToLower(s);
              && !Text.Contains(l, "least") && !Text.Contains(l, "near") && !Text.Contains(l, "vulnerable")
              && Text.Contains(l, "critically") && !Text.Contains(l, "endangered")
    ensures FormatStatus(s) != Analytics.FormatStatus(s) ==>
              FormatStatus(s) == Species.Unknown && Analytics.FormatStatus(s) == Species.CriticallyEndangered
  {
  }

  /** The status name "Critically" on its own shows the disagreement. */
  lemma CriticallyAloneDisagrees()
    ensures FormatStatus("Critically") == Species.Unknown
    ensures Analytics.FormatStatus("Critically") == Species.CriticallyEndangered
  {
    assert Text.ToLower("Critically") == "critically";
    CriticallyKeywords();
  }

  lemma CriticallyKeywords()
    ensures var l := "critically";
            && !Text.Contains(l, "least") && !Text.Contains(l, "near") && !Text.Contains(l, "vulnerable")
            && Text.Contains(l, "critically") && !Text.Contains(l, "endangered")
  {
    var l := "critically";
    Text.NotContainsByHead(l, "least");
    Text.NotContainsByHead(l, "near");
    Text.NotContainsByHead(l, "vulnerable");
    Text.ContainsPrefix(l, "critically");
    Text.NotContainsByHead(l, "endangered");
  }

  const DefaultColor := "#64748b"

  const ColorMap: map<string, string> := map[
    Species.LeastConcern := "#10b981",
    Species.NearThreatened := "#f59e0b",
    Species.Vulnerable := "#f97316",
    Species.Endangered := "#ef4444",
    Species.CriticallyEndangered := "#991b1b"
  ]

  /** `colorMap[name] || '#64748b'`: every colour in the table is a non-empty string. */
  function ColorOf(name: string): (c: string)
    ensures name in ColorMap ==> c == ColorMap[name]
    ensures name !in ColorMap ==> c == DefaultColor
  {
    if name in ColorMap && ColorMap[name] != "" then ColorMap[name] else DefaultColor
  }

  /** "Unknown" has no entry in the table and gets the default colour; each of the other
      five labels gets a colour of its own. */
  lemma LabelColors()
    ensures ColorOf(Species.Unknown) == DefaultColor
    ensures forall a, b :: a in ColorMap && b in ColorMap && a != b ==> ColorOf(a) != ColorOf(b)
    ensures forall a :: a in ColorMap ==> ColorOf(a) != DefaultColor
  {
  }

  datatype ConservationStatusData = ConservationStatusData(name: string, value: nat, color: string)

  /** The taxa that have a status, each under its normalised label. */
  function StatusLabels(results: seq<Option<string>>): (r: seq<string>)
    ensures |r| == |Seqs.Filter(results, Text.Truthy)|
    ensures forall i :: 0 <= i < |r| ==> r[i] in Species.Labels
  {
    var present := Seqs.Filter(results, Text.Truthy);
    seq(|present|, i requires 0 <= i < |present| => FormatStatus(present[i].value))
  }

  /** The chart data: one entry per label in order of first appearance, its count and
      its colour. */
  function ChartData(labels: seq<string>): (r: seq<ConservationStatusData>)
    ensures |r| == |Histogram.Distinct(labels)|
  {
    var keys := Histogram.Distinct(labels);
    var counts := Histogram.Tallied(labels);
    seq(|keys|, i requires 0 <= i < |keys| => ConservationStatusData(keys[i], counts[keys[i]], ColorOf(keys[i])))
  }

  /** `fetchINaturalistConservationStatus`: count the labels of the taxa that have a
      status, then list the entries of the tally with their colours. */
  method FetchConservationStatus(answer: Species.TaxaAnswer) returns (r: Option<seq<ConservationStatusData>>)
    ensures answer.TaxaFailed? ==> r.None?
    ensures answer.TaxaOk? ==> r == Some(ChartData(StatusLabels(answer.results)))
  {
    if answer.TaxaFailed? {
      return None;
    }
    var results := answer.results;
    var present := Seqs.Filter(results, Text.Truthy);
    var labels := seq(|present|, i requires 0 <= i < |present| => FormatStatus(present[i].value));
    var order, counts := Histogram.Tally(labels);
    var result := seq(|order|, i requires 0 <= i < |order| => ConservationStatusData(order[i], counts[order[i]], ColorOf(order[i])));
    r := Some(result);
  }

  /** The chart has one entry per distinct label, the names are distinct labels, every
      value is at least one, and the values add up to the number of taxa that have a
      status. */
  lemma ChartDataProperties(results: seq<Option<string>>)
    ensures var labels := StatusLabels(results);
            var r := ChartData(labels);
            && (forall i, j :: 0 <= i < j < |r| ==> r[i].name != r[j].name)
            && (forall i :: 0 <= i < |r| ==> r[i].name in Species.Labels && r[i].value >= 1
                                              && r[i].color == ColorOf(r[i].name))
            && ValueTotal(r) == |Seqs.Filter(results, Text.Truthy)|
  {
    var labels := StatusLabels(results);
    var keys := Histogram.Distinct(labels);
    forall i | 0 <= i < |keys|
      ensures Histogram.Count(labels, keys[i]) >= 1
    {
      Histogram.DistinctCountsPositive(labels, i);
    }
    ChartValuesSum(labels);
  }

  /** The values of the chart add up to the number of labels counted. */
  lemma ChartValuesSum(labels: seq<string>)
    ensures ValueTotal(ChartData(labels)) == |labels|
  {
    var keys := Histogram.Distinct(labels);
    Histogram.DistinctCountsSum(labels);
    var r := ChartData(labels);
    forall i | 0 <= i < |r|
      ensures r[i].value == Histogram.Count(labels, keys[i])
    {
      ChartValue(labels, i);
    }
    ValueTotalOfCounts(r, keys, labels);
  }

  /** The value column of the chart, summed. */
  function ValueTotal(r: seq<ConservationStatusData>): nat {
    if r == [] then 0 else ValueTotal(r[..|r| - 1]) + r[|r| - 1].value
  }

  /** Entries whose values are the counts of their keys add up to the sum of those
      counts. */
  lemma {:induction false} ValueTotalOfCounts(r: seq<ConservationStatusData>, keys: seq<string>, labels: seq<string>)
    requires |r| == |keys|
    requires forall i :: 0 <= i < |r| ==> r[i].value == Histogram.Count(labels, keys[i])
    ensures ValueTotal(r) == Histogram.SumOver(keys, labels)
  {
    if r != [] {
      var n := |r| - 1;
      ValueTotalOfCounts(r[..n], keys[..n], labels);
    }
  }

  lemma ChartValue(labels: seq<string>, i: nat)
    requires i < |Histogram.Distinct(labels)|
    ensures ChartData(labels)[i].value == Histogram.Count(labels, Histogram.Distinct(labels)[i])
  {
    assert Histogram.Distinct(labels)[i] in labels;
  }
}
