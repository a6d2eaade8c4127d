/** `backend/routes/analytics.js`: the `/gbif-counts` route, the `/conservation-status`
    route with its status histogram, and the back end's `formatStatus`. */
module Analytics {
  import opened Wrappers
  import Text
  import Histogram
  import Species

  /** `formatStatus`: the first keyword the lower-cased status contains, in the order
      least, near, vulnerable, critically, endangered, picks the label. */
  function FormatStatus(status: string): (r: string)
    ensures r in Species.Labels
  {
    var lower := Text.ToLower(status);
    if Text.Contains(lower, "least") then Species.LeastConcern
    else if Text.Contains(lower, "near") then Species.NearThreatened
    else if Text.Contains(lower, "vulnerable") then Species.Vulnerable
    else if Text.Contains(lower, "critically") then Species.CriticallyEndangered
    else if Text.Contains(lower, "endangered") then Species.Endangered
    else Species.Unknown
  }

  /** The normaliser ignores letter case. */
  lemma FormatStatusIgnoresCase(s: string)
    ensures FormatStatus(Text.ToLower(s)) == FormatStatus(s)
  {
    Text.ToLowerIdempotent(s);
  }

  /** A status that mentions "critically" and none of the earlier keywords is critically
      endangered, whether or not it also mentions "endangered". */
  lemma CriticallyAloneSuffices(s: string)
    requires Text.Contains(Text.ToLower(s), "critically")
    requires !Text.Contains(Text.ToLower(s), "least") && !Text.Contains(Text.ToLower(s), "near")
    requires !Text.Contains(Text.ToLower(s), "vulnerable")
    ensures FormatStatus(s) == Species.CriticallyEndangered
  {
  }

  /** A status with none of the five keywords is unknown. */
  lemma NoKeywordIsUnknown(s: string)
    requires forall w :: w in ["least", "near", "vulnerable", "critically", "endangered"] ==> !Text.Contains(Text.ToLower(s), w)
    ensures FormatStatus(s) == Species.Unknown
  {
    var l := Text.ToLower(s);
    assert !Text.Contains(l, "least") && !Text.Contains(l, "near") && !Text.Contains(l, "vulnerable");
    assert !Text.Contains(l, "critically") && !Text.Contains(l, "endangered");
  }

  /** Each label the normaliser produces is mapped to itself, so normalising twice is
      normalising once. */
  lemma FormatStatusFixesLabels(name: string)
    requires name in Species.Labels
    ensures FormatStatus(name) == name
  {
    if name == Species.LeastConcern {
      assert Text.ToLower(name) == "least concern";
      Text.ContainsPrefix("least concern", "least");
    } else if name == Species.NearThreatened {
      NearThreatenedFixed();
    } else if name == Species.Vulnerable {
      VulnerableFixed();
    } else if name == Species.CriticallyEndangered {
      CriticallyEndangeredFixed();
    } else if name == Species.Endangered {
      EndangeredFixed();
    } else {
      UnknownFixed();
    }
  }

  lemma NearThreatenedFixed()
    ensures FormatStatus(Species.NearThreatened) == Species.NearThreatened
  {
    var l := Text.ToLower(Species.NearThreatened);
    assert l == "near threatened";
    Text.NotContainsByHead(l, "least");
    Text.ContainsPrefix(l, "near");
  }

  lemma VulnerableFixed()
    ensures FormatStatus(Species.Vulnerable) == Species.Vulnerable
  {
    var l := Text.ToLower(Species.Vulnerable);
    assert l == "vulnerable";
    Text.NotContainsByChar(l, "least", 3);
    Text.NotContainsByPair(l, "near", 1);
    Text.ContainsPrefix(l, "vulnerable");
  }

  lemma CriticallyEndangeredFixed()
    ensures FormatStatus(Species.CriticallyEndangered) == Species.CriticallyEndangered
  {
    var l := Text.ToLower(Species.CriticallyEndangered);
    LowerCriticallyEndangered();
    Text.NotContainsByChar(l, "least", 3);
    Text.NotContainsByPair(l, "near", 0);
    Text.NotContainsByHead(l, "vulnerable");
    Text.ContainsPrefix(l, "critically");
  }

  lemma LowerCriticallyEndangered()
    ensures Text.ToLower(Species.CriticallyEndangered) == "critically endangered"
  {
  }

  lemma EndangeredFixed()
    ensures FormatStatus(Species.Endangered) == Species.Endangered
  {
    var l := Text.ToLower(Species.Endangered);
    assert l == "endangered";
    Text.NotContainsByHead(l, "least");
    Text.NotContainsByPair(l, "near", 0);
    Text.NotContainsByHead(l, "vulnerable");
    Text.NotContainsByHead(l, "critically");
    Text.ContainsPrefix(l, "endangered");
  }

  lemma UnknownFixed()
    ensures FormatStatus(Species.Unknown) == Species.Unknown
  {
    var l := Text.ToLower(Species.Unknown);
    assert l == "unknown";
    Text.NotContainsByHead(l, "least");
    Text.NotContainsByChar(l, "near", 1);
    Text.NotContainsLonger(l, "vulnerable");
    Text.NotContainsLonger(l, "critically");
    Text.NotContainsLonger(l, "endangered");
  }

  /** The label the route files each taxon under: its status, or "Unknown" when it has
      none, normalised. */
  function StatusLabels(results: seq<Option<string>>): (r: seq<string>)
    ensures |r| == |results|
    ensures forall i :: 0 <= i < |r| ==> r[i] in Species.Labels
    ensures forall i :: 0 <= i < |r| && !Text.Truthy(results[i]) ==> r[i] == Species.Unknown
  {
    UnknownFixed();
    seq(|results|, i requires 0 <= i < |results| => FormatStatus(Species.StatusOrUnknown(results[i])))
  }

  /** The "Unknown" default passes through the normaliser unchanged. */
  lemma MissingStatusIsUnknown(status: Option<string>)
    requires !Text.Truthy(status)
    ensures FormatStatus(Species.StatusOrUnknown(status)) == Species.Unknown
  {
    UnknownFixed();
  }

  /** The `/conservation-status` handler: the histogram of the labels, keys in order of
      first appearance, or the error reply when the request fails. */
  method ConservationStatus(answer: Species.TaxaAnswer) returns (reply: Species.Reply<(seq<string>, map<string, nat>)>)
    ensures answer.TaxaFailed? ==> reply == Species.ServerError("Failed to fetch iNaturalist data")
    ensures answer.TaxaOk? ==>
              var labels := StatusLabels(answer.results);
              reply == Species.Json((Histogram.Distinct(labels), Histogram.Tallied(labels)))
  {
    match answer
    case TaxaFailed =>
      reply := Species.ServerError("Failed to fetch iNaturalist data");
    case TaxaOk(results) =>
      var labels := seq(|results|, i requires 0 <= i < |results| => FormatStatus(Species.StatusOrUnknown(results[i])));
      var order, counts := Histogram.Tally(labels);
      reply := Species.Json((order, counts));
  }

  /** Every key of the histogram is a label, the counts add up to the number of taxa,
      and every taxon without a status is counted under "Unknown". */
  lemma ConservationHistogram(results: seq<Option<string>>)
    ensures var labels := StatusLabels(results);
            && (forall k :: k in Histogram.Tallied(labels) ==> k in Species.Labels)
            && Histogram.SumOver(Histogram.Distinct(labels), labels) == |results|
            && (forall i :: 0 <= i < |results| && !Text.Truthy(results[i]) ==> labels[i] == Species.Unknown)
  {
    var labels := StatusLabels(results);
    Histogram.DistinctCountsSum(labels);
  }

  /** The `/gbif-counts` handler: one record per category, or the error reply. */
  method GbifCountsRoute(fetch: nat -> Species.GbifAnswer) returns (reply: Species.Reply<seq<Species.CategoryCount>>)
    ensures match Species.GbifCounts(Species.SpeciesCategories, fetch)
            case None => reply == Species.ServerError("Failed to fetch GBIF data")
            case Some(counts) => reply == Species.Json(counts)
  {
    reply := Species.GbifCountsReply(fetch, "Failed to fetch GBIF data");
  }
}
