/** `frontend/src/utils/environmentalApis.ts`: the in-memory response cache, the World
    Bank forest-coverage transform and the IUCN Red List transform. HTTP results and
    the clock are parameters. */
module EnvironmentalApis {
  import opened Wrappers
  import Seqs
  import ForestMonitor

  // ---------------------------------------------------------------------------------
  // EnvironmentalDataCache
  // ---------------------------------------------------------------------------------

  /** Time to live of an entry stored without an explicit one: five minutes, in ms. */
  const DefaultTtl: int := 300000

  datatype Entry<T> = Entry(data: T, timestamp: int, ttl: int)

  /** An entry is still served while its age is at most its time to live. */
  predicate Fresh<T>(e: Entry<T>, now: int) {
    now - e.timestamp <= e.ttl
  }

  /** The table after `set(key, data, ttl)` at time `now`. */
  function Written<T>(c: map<string, Entry<T>>, key: string, data: T, now: int, ttl: int): map<string, Entry<T>> {
    c[key := Entry(data, now, ttl)]
  }

  /** What `get(key)` at time `now` returns. */
  function Fetched<T>(c: map<string, Entry<T>>, key: string, now: int): Option<T> {
    if key !in c then None
    else if !Fresh(c[key], now) then None
    else Some(c[key].data)
  }

  /** The table after `get(key)` at time `now`: an expired entry is deleted. */
  function AfterFetch<T>(c: map<string, Entry<T>>, key: string, now: int): map<string, Entry<T>> {
    if key in c && !Fresh(c[key], now) then c - {key} else c
  }

  class EnvironmentalDataCache<T> {
    var cache: map<string, Entry<T>>

    constructor ()
      ensures cache == map[]
    {
      cache := map[];
    }

    method Set(key: string, data: T, now: int, ttlMs: int := DefaultTtl)
      modifies this
      ensures cache == Written(old(cache), key, data, now, ttlMs)
    {
      cache := cache[key := Entry(data, now, ttlMs)];
    }

    method Get(key: string, now: int) returns (r: Option<T>)
      modifies this
      ensures r == Fetched(old(cache), key, now)
      ensures cache == AfterFetch(old(cache), key, now)
    {
      if key !in cache {
        return None;
      }
      var cached := cache[key];
      if now - cached.timestamp > cached.ttl {
        cache := cache - {key};
        return None;
      }
      r := Some(cached.data);
    }

    method Clear()
      modifies this
      ensures cache == map[]
    {
      cache := map[];
    }
  }

  /** A read returns the data of the latest write to that key as long as the entry's
      age is at most its time to live, the boundary included, and leaves the table as
      it was. */
  lemma GetAfterSetFresh<T>(c: map<string, Entry<T>>, key: string, data: T, t: int, ttl: int, now: int)
    requires now - t <= ttl
    ensures Fetched(Written(c, key, data, t, ttl), key, now) == Some(data)
    ensures AfterFetch(Written(c, key, data, t, ttl), key, now) == Written(c, key, data, t, ttl)
  {
  }

  /** Once the age exceeds the time to live, a read returns nothing and deletes that
      key alone. */
  lemma GetAfterSetExpired<T>(c: map<string, Entry<T>>, key: string, data: T, t: int, ttl: int, now: int)
    requires now - t > ttl
    ensures Fetched(Written(c, key, data, t, ttl), key, now) == None
    ensures AfterFetch(Written(c, key, data, t, ttl), key, now) == c - {key}
  {
  }

  /** A read of an absent key returns nothing and changes nothing. */
  lemma GetAbsent<T>(c: map<string, Entry<T>>, key: string, now: int)
    requires key !in c
    ensures Fetched(c, key, now) == None && AfterFetch(c, key, now) == c
  {
  }

  /** A write to one key does not affect what a read of another key sees. */
  lemma SetIsolated<T>(c: map<string, Entry<T>>, key: string, other: string, data: T, t: int, ttl: int, now: int)
    requires other != key
    ensures Fetched(Written(c, key, data, t, ttl), other, now) == Fetched(c, other, now)
  {
  }

  /** A second write to a key replaces the first entirely. */
  lemma SetOverwrites<T>(c: map<string, Entry<T>>, key: string, d1: T, t1: int, ttl1: int, d2: T, t2: int, ttl2: int)
    ensures Written(Written(c, key, d1, t1, ttl1), key, d2, t2, ttl2) == Written(c, key, d2, t2, ttl2)
  {
  }

  /** A read only ever removes the key it reads, and only an expired one. */
  lemma FetchKeepsOthers<T>(c: map<string, Entry<T>>, key: string, now: int)
    ensures AfterFetch(c, key, now).Keys == if Fetched(c, key, now).None? && key in c then c.Keys - {key} else c.Keys
    ensures forall k :: k in AfterFetch(c, key, now) ==> AfterFetch(c, key, now)[k] == c[k]
  {
  }

  // ---------------------------------------------------------------------------------
  // getWorldBankForestData
  // ---------------------------------------------------------------------------------

  /** One item of the World Bank series, with its country name, year and value. */
  datatype WbItem = WbItem(country: string, date: int, value: Option<real>)

  datatype WbElement = WbHeader | WbItems(items: seq<WbItem>) | WbNull

  /** The HTTP outcome: a failed request (thrown or not ok) or the parsed payload. */
  datatype WbResponse = WbFailed | WbOk(body: seq<WbElement>)

  datatype ForestCoverageData = ForestCoverageData(
    country: string, year: int, forestArea: real, forestPercent: real, change: real, source: string)

  predicate HasValue(item: WbItem) {
    item.value.Some?
  }

  function Project(item: WbItem): ForestCoverageData
    requires HasValue(item)
  {
    ForestCoverageData(item.country, item.date, 0.0, item.value.value, 0.0, "World Bank")
  }

  function ProjectAll(s: seq<WbItem>): (r: seq<ForestCoverageData>)
    requires forall i :: 0 <= i < |s| ==> HasValue(s[i])
    ensures |r| == |s| && forall i :: 0 <= i < |s| ==> r[i] == Project(s[i])
  {
    if s == [] then [] else [Project(s[0])] + ProjectAll(s[1..])
  }

  /** The `filter` then `map` steps: the items with a value, as coverage records. */
  function Records(items: seq<WbItem>): seq<ForestCoverageData> {
    ProjectAll(Seqs.Filter(items, HasValue))
  }

  predicate SortedDesc(s: seq<ForestCoverageData>) {
    forall i, j :: 0 <= i < j < |s| ==> s[i].year >= s[j].year
  }

  /** Places `x` before the first element whose year is not greater than its own. */
  function Insert(x: ForestCoverageData, t: seq<ForestCoverageData>): (r: seq<ForestCoverageData>)
    requires SortedDesc(t)
    ensures SortedDesc(r)
    ensures multiset(r) == multiset(t) + multiset{x}
    ensures |r| == |t| + 1
    ensures r[0] == x || (t != [] && r[0] == t[0])
  {
    if t == [] || x.year >= t[0].year then
      SortedCons(x, t);
      [x] + t
    else
      var rest := Insert(x, t[1..]);
      assert t == [t[0]] + t[1..];
      SortedCons(t[0], rest);
      [t[0]] + rest
  }

  lemma SortedCons(x: ForestCoverageData, s: seq<ForestCoverageData>)
    requires SortedDesc(s) && (s == [] || x.year >= s[0].year)
    ensures SortedDesc([x] + s)
  {
  }

  /** `sort((a, b) => b.year - a.year)`, a stable sort (section 23.1.3.30 of ECMA-262):
      years descend, and records of the same year keep their input order. */
  function SortByYearDesc(s: seq<ForestCoverageData>): (r: seq<ForestCoverageData>)
    ensures SortedDesc(r)
    ensures multiset(r) == multiset(s)
    ensures |r| == |s|
  {
    if s == [] then []
    else
      assert s == [s[0]] + s[1..];
      Insert(s[0], SortByYearDesc(s[1..]))
  }

  /** `getWorldBankForestData`: a failed request, a missing second element and a
      `null` second element all give the empty list. */
  function WorldBankForestData(response: WbResponse): seq<ForestCoverageData> {
    match response
    case WbFailed => []
    case WbOk(body) =>
      var items := if |body| > 1 && body[1].WbItems? then body[1].items else [];
      SortByYearDesc(Records(items))
  }

  function YearIs(y: int): ForestCoverageData -> bool {
    (r: ForestCoverageData) => r.year == y
  }

  lemma {:induction false} InsertKeepsYearOrder(x: ForestCoverageData, t: seq<ForestCoverageData>, y: int)
    requires SortedDesc(t)
    ensures Seqs.Filter(Insert(x, t), YearIs(y)) == Seqs.Filter([x] + t, YearIs(y))
  {
    if t == [] || x.year >= t[0].year {
    } else {
      var rest := Insert(x, t[1..]);
      InsertKeepsYearOrder(x, t[1..], y);
      assert ([t[0]] + rest)[1..] == rest;
      assert ([x] + t)[1..] == t;
      assert ([x] + t[1..])[1..] == t[1..];
      assert t[1..] == t[1..];
      assert t == [t[0]] + t[1..];
    }
  }

  /** The sort is stable: for every year, the records of that year appear in the output
      in the same order as in the input. */
  lemma {:induction false} SortIsStable(s: seq<ForestCoverageData>, y: int)
    ensures Seqs.Filter(SortByYearDesc(s), YearIs(y)) == Seqs.Filter(s, YearIs(y))
  {
    if s != [] {
      SortIsStable(s[1..], y);
      InsertKeepsYearOrder(s[0], SortByYearDesc(s[1..]), y);
      assert ([s[0]] + SortByYearDesc(s[1..]))[1..] == SortByYearDesc(s[1..]);
    }
  }

  /** `s[k]` has the greatest year of `s`, and every earlier element a smaller one. */
  predicate IsFirstMax(s: seq<ForestCoverageData>, k: nat) {
    && k < |s|
    && (forall i :: 0 <= i < |s| ==> s[i].year <= s[k].year)
    && (forall i :: 0 <= i < k ==> s[i].year < s[k].year)
  }

  /** The head of the sorted list is the first record with the greatest year. */
  lemma {:induction false} SortHead(s: seq<ForestCoverageData>, k: nat)
    requires IsFirstMax(s, k)
    ensures SortByYearDesc(s)[0] == s[k]
  {
    if k == 0 {
      SortHeadAtZero(s);
    } else {
      assert IsFirstMax(s[1..], k - 1);
      SortHead(s[1..], k - 1);
      SortHeadStep(s, k);
    }
  }

  lemma SortHeadAtZero(s: seq<ForestCoverageData>)
    requires IsFirstMax(s, 0)
    ensures SortByYearDesc(s)[0] == s[0]
  {
    var t := SortByYearDesc(s[1..]);
    if t != [] {
      var i := HeadFrom(s[1..], t);
      assert s[i + 1] == t[0];
    }
    InsertHead(s[0], t);
  }

  lemma SortHeadStep(s: seq<ForestCoverageData>, k: nat)
    requires 0 < k && IsFirstMax(s, k) && SortByYearDesc(s[1..])[0] == s[k]
    ensures SortByYearDesc(s)[0] == s[k]
  {
    InsertHead(s[0], SortByYearDesc(s[1..]));
  }

  /** The first element of a permutation of `s` is an element of `s`. */
  lemma HeadFrom(s: seq<ForestCoverageData>, t: seq<ForestCoverageData>) returns (i: nat)
    requires t != [] && multiset(t) == multiset(s)
    ensures i < |s| && s[i] == t[0]
  {
    assert t[0] in multiset(s);
    i :| 0 <= i < |s| && s[i] == t[0];
  }

  /** Which element `Insert` puts first. */
  lemma InsertHead(x: ForestCoverageData, t: seq<ForestCoverageData>)
    requires SortedDesc(t)
    ensures t == [] || x.year >= t[0].year ==> Insert(x, t)[0] == x
    ensures t != [] && x.year < t[0].year ==> Insert(x, t)[0] == t[0]
  {
  }

  function Observations(items: seq<WbItem>): (r: seq<ForestMonitor.Observation>)
    ensures |r| == |items|
    ensures forall i :: 0 <= i < |items| ==> r[i] == ForestMonitor.Observation(items[i].date, items[i].value)
  {
    seq(|items|, i requires 0 <= i < |items| => ForestMonitor.Observation(items[i].date, items[i].value))
  }

  lemma RecordsCons(items: seq<WbItem>)
    requires items != []
    ensures Records(items) == (if HasValue(items[0]) then [Project(items[0])] else []) + Records(items[1..])
  {
    assert items == [items[0]] + items[1..];
  }

  /** Every record comes from an item with a value. */
  lemma RecordFromItem(items: seq<WbItem>, i: nat)
    requires i < |Records(items)|
    ensures exists m :: 0 <= m < |items| && HasValue(items[m]) && Records(items)[i] == Project(items[m])
  {
    var f := Seqs.Filter(items, HasValue);
    Seqs.FilterMembers(items, HasValue);
    assert f[i] in f;
  }

  /** When the first item is the one `IsLatest` picks, the first record is the first
      record of greatest year. */
  lemma LatestFirstIsFirstMax(items: seq<WbItem>)
    requires ForestMonitor.IsLatest(Observations(items), Some(0))
    ensures Records(items) != [] && IsFirstMax(Records(items), 0) && Records(items)[0] == Project(items[0])
  {
    var obs := Observations(items);
    RecordsCons(items);
    forall i | 0 <= i < |Records(items)|
      ensures Records(items)[i].year <= Records(items)[0].year
    {
      RecordFromItem(items, i);
      var m :| 0 <= m < |items| && HasValue(items[m]) && Records(items)[i] == Project(items[m]);
      assert obs[m].value.Some?;
    }
  }

  /** `IsLatest` on a list whose pick is not its first item picks the same item in the
      list without its first item. */
  lemma LatestInTail(items: seq<WbItem>, k: nat)
    requires 0 < k && ForestMonitor.IsLatest(Observations(items), Some(k))
    ensures ForestMonitor.IsLatest(Observations(items[1..]), Some(k - 1))
    ensures HasValue(items[0]) ==> items[0].date < items[k].date
  {
    var obs := Observations(items);
    assert Observations(items[1..]) == obs[1..];
    if HasValue(items[0]) {
      assert obs[0].value.Some?;
    }
  }

  /** The item `IsLatest` picks is, as a record, the first record of greatest year. */
  lemma {:induction false} LatestIsFirstMax(items: seq<WbItem>, k: nat)
    requires ForestMonitor.IsLatest(Observations(items), Some(k))
    ensures exists j: nat :: IsFirstMax(Records(items), j) && Records(items)[j] == Project(items[k])
  {
    if k == 0 {
      LatestFirstIsFirstMax(items);
    } else {
      var rest := items[1..];
      LatestInTail(items, k);
      LatestIsFirstMax(rest, k - 1);
      var j: nat :| IsFirstMax(Records(rest), j) && Records(rest)[j] == Project(rest[k - 1]);
      RecordsCons(items);
      assert rest[k - 1] == items[k];
      if HasValue(items[0]) {
        FirstMaxCons(Project(items[0]), Records(rest), j);
        assert Records(items)[j + 1] == Records(rest)[j];
      }
    }
  }

  lemma FirstMaxCons(x: ForestCoverageData, s: seq<ForestCoverageData>, j: nat)
    requires IsFirstMax(s, j) && x.year < s[j].year
    ensures IsFirstMax([x] + s, j + 1)
  {
  }

  /** The first record of the World Bank list is the observation the Python selector in
      `backend/ForestMonitor.py` prints. */
  lemma WorldBankHeadIsLatest(items: seq<WbItem>, k: nat)
    requires ForestMonitor.IsLatest(Observations(items), Some(k))
    ensures var r := SortByYearDesc(Records(items));
            r != [] && r[0] == Project(items[k])
  {
    LatestIsFirstMax(items, k);
    var j: nat :| IsFirstMax(Records(items), j) && Records(items)[j] == Project(items[k]);
    SortHead(Records(items), j);
  }

  /** The World Bank list is empty exactly when the Python selector finds nothing. */
  lemma WorldBankEmptyIffNoValue(items: seq<WbItem>)
    ensures Records(items) == [] <==> ForestMonitor.IsLatest(Observations(items), None)
  {
    var f := Seqs.Filter(items, HasValue);
    Seqs.FilterMembers(items, HasValue);
    if Records(items) != [] {
      assert f[0] in f;
    }
  }

  // ---------------------------------------------------------------------------------
  // getIUCNRedListData
  // ---------------------------------------------------------------------------------

  datatype IucnSpecies = IucnSpecies(scientificName: string, category: string)

  /** The HTTP outcome: a failed request, or the payload's `result` field, absent or a
      list. */
  datatype IucnResponse = IucnFailed | IucnOk(result: Option<seq<IucnSpecies>>)

  datatype BiodiversityData = BiodiversityData(
    speciesCount: nat, threatenedSpecies: nat, extinctSpecies: nat, region: string,
    scientificName: string, conservationStatus: string)

  /** The most records one page is turned into. */
  const IucnPageLimit: nat := 50

  predicate IsThreatened(category: string) {
    category == "VU" || category == "EN" || category == "CR"
  }

  predicate IsExtinct(category: string) {
    category == "EX" || category == "EW"
  }

  /** The record for one species: one species, flagged as threatened or extinct by its
      Red List category (never both), in the requested region or 'Global'. */
  function IucnRecord(sp: IucnSpecies, region: Option<string>): (r: BiodiversityData)
    ensures r.speciesCount == 1
    ensures r.threatenedSpecies == 1 <==> IsThreatened(sp.category)
    ensures r.extinctSpecies == 1 <==> IsExtinct(sp.category)
    ensures r.threatenedSpecies <= 1 && r.extinctSpecies <= 1
    ensures r.threatenedSpecies + r.extinctSpecies <= 1
    ensures r.region == if region.Some? && region.value != "" then region.value else "Global"
    ensures r.conservationStatus == sp.category && r.scientificName == sp.scientificName
  {
    BiodiversityData(
      1,
      if IsThreatened(sp.category) then 1 else 0,
      if IsExtinct(sp.category) then 1 else 0,
      if region.Some? && region.value != "" then region.value else "Global",
      sp.scientificName,
      sp.category)
  }

  /** `getIUCNRedListData`: no API key, a failed request or an absent `result` give
      the empty list; otherwise one record per species among the first fifty, in
      order. */
  function IucnRedListData(apiKey: Option<string>, response: IucnResponse, region: Option<string>): (r: seq<BiodiversityData>)
    ensures apiKey.None? || apiKey.value == "" || response.IucnFailed? ==> r == []
    ensures |r| <= IucnPageLimit
    ensures apiKey.Some? && apiKey.value != "" && response.IucnOk? ==>
              var species := response.result.GetOr([]);
              && |r| == (if |species| < IucnPageLimit then |species| else IucnPageLimit)
              && forall i :: 0 <= i < |r| ==> r[i] == IucnRecord(species[i], region)
  {
    if apiKey.None? || apiKey.value == "" then []
    else match response
      case IucnFailed => []
      case IucnOk(result) =>
        var species := result.GetOr([]);
        var page := if |species| <= IucnPageLimit then species else species[..IucnPageLimit];
        seq(|page|, i requires 0 <= i < |page| => IucnRecord(page[i], region))
  }
}
