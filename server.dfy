/** `backend/server.js`: its own `/api/gbif-counts` and `/api/conservation-status`
    handlers (the latter counts raw status names, without normalising them) and
    `normalizePort` applied to the `PORT` setting. */
module Server {
  import opened Wrappers
  import Text
  import Decimal
  import Histogram
  import Species

  /** The label the handler files each taxon under: its raw status name, or "Unknown". */
  function RawStatuses(results: seq<Option<string>>): (r: seq<string>)
    ensures |r| == |results|
    ensures forall i :: 0 <= i < |r| ==> r[i] == Species.StatusOrUnknown(results[i])
  {
    seq(|results|, i requires 0 <= i < |results| => Species.StatusOrUnknown(results[i]))
  }

  /** The `/api/conservation-status` handler. */
  method ConservationStatus(answer: Species.TaxaAnswer) returns (reply: Species.Reply<(seq<string>, map<string, nat>)>)
    ensures answer.TaxaFailed? ==> reply == Species.ServerError("Failed to fetch conservation status")
    ensures answer.TaxaOk? ==>
              var statuses := RawStatuses(answer.results);
              reply == Species.Json((Histogram.Distinct(statuses), Histogram.Tallied(statuses)))
  {
    match answer
    case TaxaFailed =>
      reply := Species.ServerError("Failed to fetch conservation status");
    case TaxaOk(results) =>
      var statuses := seq(|results|, i requires 0 <= i < |results| => Species.StatusOrUnknown(results[i]));
      var order, counts := Histogram.Tally(statuses);
      reply := Species.Json((order, counts));
  }

  /** The counts add up to the number of taxa; the keys are exactly the raw status names
      that occur, with "Unknown" standing for a missing or empty one. */
  lemma RawHistogram(results: seq<Option<string>>)
    ensures var statuses := RawStatuses(results);
            && Histogram.SumOver(Histogram.Distinct(statuses), statuses) == |results|
            && (forall i :: 0 <= i < |results| && Text.Truthy(results[i]) ==> results[i].value in Histogram.Tallied(statuses))
            && (forall i :: 0 <= i < |results| && !Text.Truthy(results[i]) ==> "Unknown" in Histogram.Tallied(statuses))
            && (forall k :: k in Histogram.Tallied(statuses) ==>
                  k == "Unknown" || exists i :: 0 <= i < |results| && results[i] == Some(k))
  {
    Histogram.DistinctCountsSum(RawStatuses(results));
    RawHistogramCovers(results);
    RawHistogramKeys(results);
  }

  lemma RawHistogramCovers(results: seq<Option<string>>)
    ensures var statuses := RawStatuses(results);
            forall i :: 0 <= i < |results| ==> statuses[i] in Histogram.Tallied(statuses)
  {
  }

  lemma RawHistogramKeys(results: seq<Option<string>>)
    ensures var statuses := RawStatuses(results);
            forall k :: k in Histogram.Tallied(statuses) ==>
              k == "Unknown" || exists i :: 0 <= i < |results| && results[i] == Some(k)
  {
    var statuses := RawStatuses(results);
    forall k | k in Histogram.Tallied(statuses) && k != "Unknown"
      ensures exists i :: 0 <= i < |results| && results[i] == Some(k)
    {
      var i :| 0 <= i < |statuses| && statuses[i] == k;
      assert results[i] == Some(k);
    }
  }

  /** The `/api/gbif-counts` handler. */
  method GbifCountsRoute(fetch: nat -> Species.GbifAnswer) returns (reply: Species.Reply<seq<Species.CategoryCount>>)
    ensures match Species.GbifCounts(Species.SpeciesCategories, fetch)
            case None => reply == Species.ServerError("Failed to fetch GBIF counts")
            case Some(counts) => reply == Species.Json(counts)
  {
    reply := Species.GbifCountsReply(fetch, "Failed to fetch GBIF counts");
  }

  /** What `normalizePort` returns: a port number, the original string (a named pipe),
      or `false`. */
  datatype Port = PortNumber(n: nat) | Pipe(name: string) | NoPort

  /** `normalizePort`: `parseInt(val, 10)`; `NaN` keeps the string, a non-negative number
      is the port, a negative one is `false`. */
  function NormalizePort(val: string): (r: Port)
    ensures r.Pipe? <==> Decimal.ParseInt(val).None?
    ensures r.Pipe? ==> r.name == val
    ensures r.PortNumber? <==> Decimal.ParseInt(val).Some? && Decimal.ParseInt(val).value >= 0
    ensures r.PortNumber? ==> r.n == Decimal.ParseInt(val).value
  {
    match Decimal.ParseInt(val)
    case None => Pipe(val)
    case Some(port) => if port >= 0 then PortNumber(port) else NoPort
  }

  /** `normalizePort(process.env.PORT || '3001')`. */
  function PortSetting(env: Option<string>): Port {
    NormalizePort(Text.OrElse(env, "3001"))
  }

  /** Without a `PORT` setting the server uses port 3001. */
  lemma DefaultPort()
    ensures PortSetting(None) == PortNumber(3001)
  {
    assert Decimal.NatToString(3001) == "3001" by {
      assert Decimal.NatToString(3) == "3";
      assert Decimal.NatToString(30) == "30";
      assert Decimal.NatToString(300) == "300";
    }
    Decimal.ParseIntOfDecimal(3001, "");
    assert "3001" + "" == "3001";
  }

  /** Any decimal port, optionally after white space and followed by text that does not
      start with a digit, is read as that number: "3001abc" gives 3001. */
  lemma NumericPrefix(w: string, n: nat, t: string)
    requires Text.AllWhiteSpace(w)
    requires t == [] || !Decimal.IsDigit(t[0])
    ensures NormalizePort(w + Decimal.NatToString(n) + t) == PortNumber(n)
  {
    assert w + Decimal.NatToString(n) + t == w + (Decimal.NatToString(n) + t);
    Decimal.ParseIntSkipsWhiteSpace(w, Decimal.NatToString(n) + t);
    Decimal.ParseIntOfDecimal(n, t);
  }

  /** A negative number gives `false`. */
  lemma NegativePort(n: nat, t: string)
    requires n > 0
    requires t == [] || !Decimal.IsDigit(t[0])
    ensures NormalizePort("-" + Decimal.NatToString(n) + t) == NoPort
  {
    Decimal.ParseIntOfNegativeDecimal(n, t);
  }

  /** A setting that starts, after white space, with neither a sign nor a digit is kept
      as a pipe name. */
  lemma NamedPipe(w: string, t: string)
    requires Text.AllWhiteSpace(w)
    requires t == [] || (!Text.IsWhiteSpace(t[0]) && !Decimal.IsDigit(t[0]) && t[0] != '-' && t[0] != '+')
    ensures NormalizePort(w + t) == Pipe(w + t)
  {
    Decimal.ParseIntNaN(w, t);
  }
}
