/** `backend/ForestMonitor.py`: for each World Bank indicator, fetch the world aggregate
    series and report the observation with the latest year among those that have a
    value. The HTTP call is a parameter; printed lines are records. */
module ForestMonitor {
  import opened Wrappers

  /** One element of a World Bank series: the year (the `date` field read as an integer)
      and the value, which the API reports as `null` for years without data. */
  datatype Observation = Observation(date: int, value: Option<real>)

  /** The elements of a World Bank JSON payload: the paging header, a list of
      observations, or `null`. */
  datatype Element = Header | Records(entries: seq<Observation>) | Null

  datatype Response = Response(status: int, body: seq<Element>)

  /** What the script prints: an indicator heading, the selected year and value, or the
      failure message with the HTTP status. */
  datatype Line = Heading(name: string) | YearValue(year: int, value: real) | RequestFailed(status: int)

  const Indicators: seq<(string, string)> := [("Forest Area (% of Land Area)", "AG.LND.FRST.ZS")]

  /** `r` names the entry the selection should return: none when no entry has a value;
      otherwise an entry with a value whose date is the greatest among entries with a
      value and strictly greater than that of every earlier entry with a value. */
  predicate IsLatest(s: seq<Observation>, r: Option<nat>) {
    match r
    case None => forall i :: 0 <= i < |s| ==> s[i].value.None?
    case Some(k) =>
      && k < |s|
      && s[k].value.Some?
      && (forall i :: 0 <= i < |s| && s[i].value.Some? ==> s[i].date <= s[k].date)
      && (forall i :: 0 <= i < k && s[i].value.Some? ==> s[i].date < s[k].date)
  }

  /** At most one choice meets `IsLatest`. */
  lemma LatestUnique(s: seq<Observation>, r1: Option<nat>, r2: Option<nat>)
    requires IsLatest(s, r1) && IsLatest(s, r2)
    ensures r1 == r2
  {
    if r1.Some? && r2.Some? {
      var k1, k2 := r1.value, r2.value;
      assert s[k1].date == s[k2].date;
    }
  }

  /** The selection the loop makes after seeing all of `s`: a later entry with a value
      replaces the current choice only when its date is strictly greater. */
  function Latest(s: seq<Observation>): (r: Option<nat>)
    ensures IsLatest(s, r)
  {
    if s == [] then None
    else
      var init := s[..|s| - 1];
      var p := Latest(init);
      var e := s[|s| - 1];
      if e.value.None? then p
      else if p.None? || e.date > init[p.value].date then Some(|s| - 1)
      else p
  }

  /** The guard before the selection: a list of at least two elements whose second is a
      non-empty list of observations. */
  predicate Selectable(body: seq<Element>) {
    |body| > 1 && body[1].Records? && body[1].entries != []
  }

  /** What one call of `fetch_indicator_world` prints for a response. */
  function Report(response: Response): seq<Line> {
    if response.status != 200 then [RequestFailed(response.status)]
    else if !Selectable(response.body) then []
    else
      var entries := response.body[1].entries;
      match Latest(entries)
      case None => []
      case Some(k) => [YearValue(entries[k].date, entries[k].value.value)]
  }

  /** `fetch_indicator_world` on a response that the HTTP call produced: the selection
      loop keeps a running best entry. */
  method FetchIndicatorWorld(response: Response) returns (out: seq<Line>)
    ensures out == Report(response)
  {
    out := [];
    if response.status == 200 {
      var data := response.body;
      if |data| > 1 && data[1].Records? && data[1].entries != [] {
        var entries := data[1].entries;
        var latest: Option<nat> := None;
        for i := 0 to |entries|
          invariant latest == Latest(entries[..i])
        {
          var entry := entries[i];
          assert entries[..i + 1][..i] == entries[..i];
          if entry.value.Some? {
            if latest.None? || entry.date > entries[latest.value].date {
              latest := Some(i);
            }
          }
        }
        assert entries[..|entries|] == entries;
        if latest.Some? {
          var chosen := entries[latest.value];
          out := [YearValue(chosen.date, chosen.value.value)];
        }
      }
    } else {
      out := [RequestFailed(response.status)];
    }
  }

  /** A successful response with observations prints the year and value of the entry
      `IsLatest` describes, whatever order the observations come in. */
  lemma ReportPrintsLatest(response: Response, k: nat)
    requires response.status == 200 && Selectable(response.body)
    requires IsLatest(response.body[1].entries, Some(k))
    ensures var e := response.body[1].entries[k];
            Report(response) == [YearValue(e.date, e.value.value)]
  {
    LatestUnique(response.body[1].entries, Latest(response.body[1].entries), Some(k));
  }

  /** A successful response prints nothing when the payload fails the guard or no
      observation has a value. */
  lemma ReportSilent(response: Response)
    requires response.status == 200
    requires !Selectable(response.body)
             || forall i :: 0 <= i < |response.body[1].entries| ==> response.body[1].entries[i].value.None?
    ensures Report(response) == []
  {
    if Selectable(response.body) {
      LatestUnique(response.body[1].entries, Latest(response.body[1].entries), None);
    }
  }

  /** Any other status prints exactly the failure line carrying that status, and no
      selection takes place. */
  lemma ReportFailure(response: Response)
    requires response.status != 200
    ensures Report(response) == [RequestFailed(response.status)]
  {
  }

  /** The script's output for a list of (name, code) indicators, in order. */
  function RunOutput(indicators: seq<(string, string)>, fetch: string -> Response): seq<Line> {
    if indicators == [] then []
    else
      var last := indicators[|indicators| - 1];
      RunOutput(indicators[..|indicators| - 1], fetch) + [Heading(last.0)] + Report(fetch(last.1))
  }

  /** The top-level loop over the indicators. */
  method Run(indicators: seq<(string, string)>, fetch: string -> Response) returns (out: seq<Line>)
    ensures out == RunOutput(indicators, fetch)
  {
    out := [];
    for i := 0 to |indicators|
      invariant out == RunOutput(indicators[..i], fetch)
    {
      var (name, code) := indicators[i];
      assert indicators[..i + 1][..i] == indicators[..i];
      var lines := FetchIndicatorWorld(fetch(code));
      out := out + [Heading(name)] + lines;
    }
    assert indicators[..|indicators|] == indicators;
  }

  /** Each indicator is processed independently: the output for two lists one after the
      other is the output for the first followed by the output for the second. */
  lemma {:induction false} RunOutputAppend(a: seq<(string, string)>, b: seq<(string, string)>, fetch: string -> Response)
    ensures RunOutput(a + b, fetch) == RunOutput(a, fetch) + RunOutput(b, fetch)
  {
    if b == [] {
      assert a + b == a;
    } else {
      var init := b[..|b| - 1];
      assert (a + b)[..|a + b| - 1] == a + init;
      RunOutputAppend(a, init, fetch);
    }
  }

  /** One indicator yields its heading followed by its report. */
  lemma RunOutputSingle(p: (string, string), fetch: string -> Response)
    ensures RunOutput([p], fetch) == [Heading(p.0)] + Report(fetch(p.1))
  {
    assert [p][..0] == [];
  }
}
