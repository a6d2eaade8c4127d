/** What the two Express back ends (`backend/routes/analytics.js`, `backend/server.js`)
    and the analytics component (`frontend/src/components/BiodiversityAnalytics.tsx`)
    share: the GBIF species categories, the loop that asks GBIF for the species count of
    each category, the way a taxon's status is read from an iNaturalist result, and the
    conservation-status labels. The HTTP requests are a parameter. */
module Species {
  import opened Wrappers
  import Text

  datatype SpeciesCategory = SpeciesCategory(name: string, taxonKey: nat)

  const SpeciesCategories: seq<SpeciesCategory> := [
    SpeciesCategory("Birds", 212),
    SpeciesCategory("Mammals", 359),
    SpeciesCategory("Reptiles", 358),
    SpeciesCategory("Amphibians", 131),
    SpeciesCategory("Fish", 777),
    SpeciesCategory("Insects", 216)
  ]

  /** The answer of the GBIF count request for one class key: a failure (network error or
      a body that is not JSON), or the `count` field, absent when the body has none. */
  datatype GbifAnswer = GbifFailed | GbifOk(count: Option<int>)

  datatype CategoryCount = CategoryCount(category: string, count: Option<int>)

  /** The counts the loop collects, one per category in list order, or `None` when a
      request fails and the loop is abandoned. */
  function GbifCounts(categories: seq<SpeciesCategory>, fetch: nat -> GbifAnswer): (r: Option<seq<CategoryCount>>)
    ensures r.None? <==> exists i :: 0 <= i < |categories| && fetch(categories[i].taxonKey).GbifFailed?
    ensures r.Some? ==> |r.value| == |categories|
  {
    if categories == [] then Some([])
    else
      var init := categories[..|categories| - 1];
      var last := categories[|categories| - 1];
      assert forall i :: 0 <= i < |init| ==> init[i] == categories[i];
      match GbifCounts(init, fetch)
      case None => None
      case Some(counts) =>
        match fetch(last.taxonKey)
        case GbifFailed => None
        case GbifOk(c) => Some(counts + [CategoryCount(last.name, c)])
  }

  /** On success there is exactly one record per category, in list order, carrying the
      category's name and the count GBIF gave for its key. */
  lemma {:induction false} GbifCountsInOrder(categories: seq<SpeciesCategory>, fetch: nat -> GbifAnswer)
    requires GbifCounts(categories, fetch).Some?
    ensures var counts := GbifCounts(categories, fetch).value;
            forall i :: 0 <= i < |categories| ==>
              counts[i] == CategoryCount(categories[i].name, fetch(categories[i].taxonKey).count)
  {
    if categories != [] {
      var init := categories[..|categories| - 1];
      assert forall i :: 0 <= i < |init| ==> init[i] == categories[i];
      GbifCountsInOrder(init, fetch);
    }
  }

  /** The `for ... of` loop over the categories, awaiting one request after the other. */
  method FetchGbifCounts(categories: seq<SpeciesCategory>, fetch: nat -> GbifAnswer)
    returns (r: Option<seq<CategoryCount>>)
    ensures r == GbifCounts(categories, fetch)
  {
    var results: seq<CategoryCount> := [];
    for i := 0 to |categories|
      invariant GbifCounts(categories[..i], fetch) == Some(results)
    {
      assert categories[..i + 1][..i] == categories[..i];
      var answer := fetch(categories[i].taxonKey);
      if answer.GbifFailed? {
        assert categories[..i + 1][i] == categories[i];
        GbifFailurePersists(categories, fetch, i + 1);
        return None;
      }
      results := results + [CategoryCount(categories[i].name, answer.count)];
    }
    assert categories[..|categories|] == categories;
    r := Some(results);
  }

  /** A failure among the first `n` categories fails the whole list. */
  lemma GbifFailurePersists(categories: seq<SpeciesCategory>, fetch: nat -> GbifAnswer, n: nat)
    requires n <= |categories| && GbifCounts(categories[..n], fetch).None?
    ensures GbifCounts(categories, fetch).None?
  {
    var i :| 0 <= i < n && fetch(categories[..n][i].taxonKey).GbifFailed?;
    assert categories[..n][i] == categories[i];
  }

  /** What an Express handler sends: a JSON body, or status 500 with an error message. */
  datatype Reply<T> = Json(body: T) | ServerError(error: string)

  /** The GBIF counts handler both back ends share: the counts of the species
      categories as JSON, or the 500 reply with the back end's own error message. */
  method GbifCountsReply(fetch: nat -> GbifAnswer, failure: string) returns (reply: Reply<seq<CategoryCount>>)
    ensures match GbifCounts(SpeciesCategories, fetch)
            case None => reply == ServerError(failure)
            case Some(counts) => reply == Json(counts)
  {
    var r := FetchGbifCounts(SpeciesCategories, fetch);
    if r.Some? {
      reply := Json(r.value);
    } else {
      reply := ServerError(failure);
    }
  }

  /** The results of the iNaturalist taxa request: each taxon's
      `conservation_status?.status_name`, absent when the taxon has no status. */
  datatype TaxaAnswer = TaxaFailed | TaxaOk(results: seq<Option<string>>)

  /** `taxon.conservation_status?.status_name || "Unknown"`. */
  function StatusOrUnknown(status: Option<string>): (r: string)
    ensures r != ""
    ensures Text.Truthy(status) ==> r == status.value
    ensures !Text.Truthy(status) ==> r == Unknown
  {
    Text.OrElse(status, "Unknown")
  }

  // The labels the status normalisers produce.
  const LeastConcern := "Least Concern"
  const NearThreatened := "Near Threatened"
  const Vulnerable := "Vulnerable"
  const CriticallyEndangered := "Critically Endangered"
  const Endangered := "Endangered"
  const Unknown := "Unknown"

  const Labels: set<string> :=
    {LeastConcern, NearThreatened, Vulnerable, CriticallyEndangered, Endangered, Unknown}
}
