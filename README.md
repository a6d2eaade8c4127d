# EcoSphere core, modelled in Dafny

EcoSphere is an environmental-monitoring application. Its Python script and two Express back ends ask the World Bank, GBIF and iNaturalist for forest and species figures. Its React front end shows forest coverage, weather alerts, climate-risk indices, biodiversity charts, a carbon calculator, a project tracker, a course catalogue, a group chat and an AI assistant. This project models the deterministic logic inside those pieces and proves what it promises:

- **Latest observation.** The selection of the latest World Bank observation, as `backend/ForestMonitor.py` does it in one pass and as `getWorldBankForestData` does it with a filter and a descending sort by year. The two are proved to agree.
- **Caches.** The two caches with an expiry: the in-memory `EnvironmentalDataCache` and the `localStorage` cache of `forestData.ts`. Both are classes over a `map`, with the clock as a parameter. Also modelled: the cache key builder and the cache-first flow of the forest data functions.
- **Classification rules.** Each is a first-match chain:
  - the three conservation-status normalisers (the back end's, the front end's and the raw variant of `backend/server.js`);
  - the NWS severity mappers, the alert type and severity chosen from temperature and wind, and the icon keywords;
  - the regional forest-status bands and the coordinates-to-country rules;
  - the progress and status colours, and the IUCN threatened and extinct flags.
- **Counting.** The status histograms, kept in the order in which an object lists its keys, and the per-category counts, course counters and project totals.
- **Component state.** Each stateful component is a class whose methods are its handlers:
  - the carbon calculator's project list and form;
  - the chat page's selections, filters and guarded handlers;
  - the assistant's message list with its loading placeholder, and the progress counter of its data load.
- **Calendar arithmetic.** The month and hour arithmetic of `climateData.ts`, with its base-risk tables capped at 100.
- **`parseInt`.** `normalizePort` is modelled on `parseInt(s, 10)` and the course hours on `parseInt` without a radix, which reads a "0x" prefix as base 16, both as defined in section 19.2.5 of ECMA-262.

Network answers, the clock, random draws and transcendental functions are parameters. A numeric quantity is an exact `real` or an `int`. Every module names, in its opening comment, the source file it follows.

Two differences between the normalisers are stated as lemmas rather than findings, because either behaviour may be intended:

- **"critically".** The back end's `formatStatus` calls any status mentioning "critically" Critically Endangered. The front end's also wants "endangered", so "critically" alone is Unknown there (`BiodiversityAnalytics.CriticallyAloneDisagrees`).
- **Southeast Asia.** `generateSatelliteAlerts('southeast')` returns no alert. Its one South-East Asian alert is located in "Borneo, Indonesia", which does not contain "southeast asia" (`ForestData.SoutheastHasNoAlerts`).

## Model

| member | source | states |
|---|---|---|
| ForestMonitor.Latest | backend/ForestMonitor.py:10-15 | the running selection ends on an entry with a value whose year is the greatest among entries with a value and strictly greater than every earlier one's; none when no entry has a value |
| ForestMonitor.LatestUnique | backend/ForestMonitor.py:10-15 | at most one choice meets that description, so the selection is determined by the data |
| ForestMonitor.FetchIndicatorWorld | backend/ForestMonitor.py:3-21 | the loop over `data[1]` prints exactly what `Report` describes: the failure line for a non-200 status, nothing when the guard fails, else the latest year and its value |
| ForestMonitor.ReportPrintsLatest | backend/ForestMonitor.py:9-19 | a 200 response whose observations have a latest valued entry prints that entry's year and value, whatever order the observations come in |
| ForestMonitor.ReportSilent | backend/ForestMonitor.py:9-16 | a 200 response prints nothing when the payload is not a list with a non-empty second element, or when no observation has a value |
| ForestMonitor.ReportFailure | backend/ForestMonitor.py:7-21 | any other status prints only the failure line with that status |
| ForestMonitor.Run | backend/ForestMonitor.py:23-29 | the top-level loop prints, per indicator in order, its heading followed by its report |
| ForestMonitor.RunOutputAppend | backend/ForestMonitor.py:27-29 | indicators are processed independently: the output for two lists in a row is the concatenation of their outputs |
| ForestMonitor.RunOutputSingle | backend/ForestMonitor.py:27-29 | one indicator yields its heading then its report |
| Species.GbifCounts | backend/routes/analytics.js:19-27 | the counts the category loop collects: none exactly when some category's request fails, otherwise one record per category |
| Species.GbifCountsInOrder | backend/routes/analytics.js:21-27 | on success, record i carries category i's name and the count GBIF gave for its class key, in list order |
| Species.FetchGbifCounts | backend/routes/analytics.js:21-27 | the sequential loop of awaited requests returns what `GbifCounts` describes, abandoning the list at the first failure |
| Species.GbifCountsReply | backend/routes/analytics.js:17-33 | the handler both back ends share (also `backend/server.js`, lines 25-40): the counts of the species categories, or a 500 reply carrying the given error message when any request fails |
| Species.GbifFailurePersists | backend/routes/analytics.js:18-31 | a failure among the first n categories fails the whole route |
| Species.StatusOrUnknown | backend/routes/analytics.js:46 | a taxon's status name when it is truthy, "Unknown" otherwise; never empty |
| Analytics.FormatStatus | backend/routes/analytics.js:57-65 | the normaliser always returns one of the six conservation labels |
| Analytics.FormatStatusIgnoresCase | backend/routes/analytics.js:58 | the label depends only on the lower-cased status |
| Analytics.CriticallyAloneSuffices | backend/routes/analytics.js:59-63 | a status mentioning "critically" but not least, near or vulnerable is critically endangered, even though it also contains "endangered" |
| Analytics.NoKeywordIsUnknown | backend/routes/analytics.js:59-64 | a status with none of the five keywords is "Unknown" |
| Analytics.FormatStatusFixesLabels | backend/routes/analytics.js:57-65 | every label maps to itself, so normalising twice equals normalising once |
| Analytics.StatusLabels | backend/routes/analytics.js:45-47 | one label per taxon, each a conservation label, and "Unknown" for every taxon without a status |
| Analytics.MissingStatusIsUnknown | backend/routes/analytics.js:46-47 | the "Unknown" default passes through the normaliser unchanged |
| Analytics.ConservationStatus | backend/routes/analytics.js:36-55 | the route replies with the status histogram, keys in order of first appearance, or the 500 reply "Failed to fetch iNaturalist data" |
| Analytics.ConservationHistogram | backend/routes/analytics.js:43-51 | every histogram key is a label, the counts add up to the number of taxa, and status-less taxa count under "Unknown" |
| Analytics.GbifCountsRoute | backend/routes/analytics.js:17-33 | the route replies with the per-category counts, or the 500 reply "Failed to fetch GBIF data" when any request fails |
| Histogram.Tally | backend/server.js:49-53 | the `statusCounts[s] = (statusCounts[s] \|\| 0) + 1` loop yields the keys in order of first appearance and maps each key to its number of occurrences, and nothing else |
| Histogram.DistinctCountsSum | backend/server.js:49-53 | the counts of the distinct keys add up to the number of items tallied |
| Server.RawStatuses | backend/server.js:50-51 | one key per taxon: its raw status name when truthy, "Unknown" otherwise |
| Server.ConservationStatus | backend/server.js:42-59 | the handler replies with the histogram of raw status names, or the 500 reply "Failed to fetch conservation status" |
| Server.RawHistogram | backend/server.js:49-54 | the counts add up to the number of taxa; the keys are exactly the raw status names that occur, with "Unknown" for a missing or empty one |
| Server.GbifCountsRoute | backend/server.js:25-40 | the handler replies with the per-category counts, or the 500 reply "Failed to fetch GBIF counts" when any request fails |
| Server.NormalizePort | backend/server.js:87-101 | `parseInt` giving NaN keeps the string as a pipe name; a non-negative number is the port; a negative one is `false` |
| Server.DefaultPort | backend/server.js:65 | without a `PORT` setting the server listens on port 3001 |
| Server.NumericPrefix | backend/server.js:87-97 | a decimal port after white space and before non-digit text is read as that number ("3001abc" is 3001) |
| Server.NegativePort | backend/server.js:95-100 | a negative number gives `false` |
| Server.NamedPipe | backend/server.js:90-93 | a setting whose first non-blank character is neither a sign nor a digit is kept as a pipe name |
| Decimal.ParseIntOfDecimal | backend/server.js:88 | `parseInt(s, 10)` reads back the decimal form of n and stops at the first non-digit |
| Decimal.ParseIntOfNegativeDecimal | backend/server.js:88 | after a minus sign, `parseInt` reads back -n |
| Decimal.ParseIntSkipsWhiteSpace | backend/server.js:88 | leading white space does not change what `parseInt` reads |
| Decimal.ParseIntNaN | backend/server.js:88-93 | a blank string, or one whose first non-blank character is neither sign nor digit, parses to NaN |
| Decimal.DigitsValueOfNatToString | backend/server.js:88 | the value of the decimal form of n is n (the round trip behind `parseInt`) |
| Decimal.DefaultRadixAgreesWithDecimal | frontend/src/components/EducationHub.tsx:141 | `parseInt` without a radix reads exactly as `parseInt(s, 10)` unless a "0x" or "0X" prefix follows the white space and sign |
| Decimal.ParseIntOfHex | frontend/src/components/EducationHub.tsx:141 | after an optional sign, "0x" or "0X" switches `parseInt` without a radix to base 16: it reads the hexadecimal digits up to the first non-digit, with the sign, and gives NaN when there are none |
| Decimal.HexPrefixWithoutDigits | frontend/src/components/EducationHub.tsx:141 | a "0x" prefix followed by no hexadecimal digit, as in "0xg", gives NaN |
| Decimal.DecimalReadsHexAsZero | backend/server.js:88 | `parseInt(s, 10)` reads every such hexadecimal literal as 0, stopping at the "x" |
| Decimal.HexDuration | frontend/src/components/EducationHub.tsx:141 | "0x1A hours" reads as 26 without a radix and as 0 with radix 10 |
| Decimal.NegativeHex | frontend/src/components/EducationHub.tsx:141 | "-0x10" reads as -16 without a radix: the sign comes before the prefix |
| Histogram.Tallied | backend/server.js:49-53 | as a value, the tally's keys are exactly the tallied items and each maps to its number of occurrences |
| Server.RawHistogramCovers | backend/server.js:49-53 | every taxon's key is counted in the histogram |
| Server.RawHistogramKeys | backend/server.js:49-53 | every histogram key is "Unknown" or the raw status name of some taxon |
| BiodiversityAnalytics.SameCategoriesAsBackEnd | frontend/src/components/BiodiversityAnalytics.tsx:19-26 | the front end asks for the same six categories and class keys, in the same order, as the back ends |
| BiodiversityAnalytics.FetchGbifCounts | frontend/src/components/BiodiversityAnalytics.tsx:29-39 | `fetchGBIFCounts` returns one record per category in order, or rejects when any request fails |
| BiodiversityAnalytics.FormatStatus | frontend/src/components/BiodiversityAnalytics.tsx:77-85 | the front-end normaliser always returns one of the six conservation labels |
| BiodiversityAnalytics.NormalisersAgree | frontend/src/components/BiodiversityAnalytics.tsx:77-85 | the front-end and back-end normalisers differ exactly on statuses that mention "critically" but not "endangered" (nor least, near, vulnerable); there the front end says "Unknown" and the back end "Critically Endangered" |
| BiodiversityAnalytics.CriticallyAloneDisagrees | frontend/src/components/BiodiversityAnalytics.tsx:82 | "Critically" on its own is "Unknown" here and "Critically Endangered" in the back end |
| BiodiversityAnalytics.ColorOf | frontend/src/components/BiodiversityAnalytics.tsx:57-69 | a label in the colour table gets its colour, any other name the default grey |
| BiodiversityAnalytics.LabelColors | frontend/src/components/BiodiversityAnalytics.tsx:57-69 | "Unknown" gets the default colour; the five other labels get distinct colours that differ from the default |
| BiodiversityAnalytics.StatusLabels | frontend/src/components/BiodiversityAnalytics.tsx:49-55 | only taxa with a truthy status are counted, each under a conservation label |
| BiodiversityAnalytics.ChartData | frontend/src/components/BiodiversityAnalytics.tsx:65-71 | one chart entry per distinct label |
| BiodiversityAnalytics.FetchConservationStatus | frontend/src/components/BiodiversityAnalytics.tsx:42-74 | the chart data built from the tally of the labels of taxa with a status, in first-appearance order; a failed request rejects |
| BiodiversityAnalytics.ChartDataProperties | frontend/src/components/BiodiversityAnalytics.tsx:43-71 | chart names are distinct labels, every value is at least one, every colour is the label's, and the chart's value column adds up to the number of taxa with a status |
| BiodiversityAnalytics.ChartValuesSum | frontend/src/components/BiodiversityAnalytics.tsx:52-71 | the values of the chart add up to the number of labels counted |
| EnvironmentalApis.EnvironmentalDataCache.constructor | frontend/src/utils/environmentalApis.ts:613-614 | a new cache holds no entries |
| EnvironmentalApis.EnvironmentalDataCache.Set | frontend/src/utils/environmentalApis.ts:616-622 | `set` stores the data with the current time and the given time to live (five minutes by default), replacing any entry for that key and leaving the others |
| EnvironmentalApis.EnvironmentalDataCache.Get | frontend/src/utils/environmentalApis.ts:624-634 | `get` returns nothing for an absent key; deletes the entry and returns nothing once its age exceeds its time to live; otherwise returns the data and changes nothing |
| EnvironmentalApis.EnvironmentalDataCache.Clear | frontend/src/utils/environmentalApis.ts:636-638 | `clear` empties the cache |
| EnvironmentalApis.GetAfterSetFresh | frontend/src/utils/environmentalApis.ts:616-633 | a read returns the latest write's data while its age is at most its time to live, the boundary included, and leaves the table unchanged |
| EnvironmentalApis.GetAfterSetExpired | frontend/src/utils/environmentalApis.ts:628-631 | once the age exceeds the time to live, a read returns nothing and deletes that key alone |
| EnvironmentalApis.GetAbsent | frontend/src/utils/environmentalApis.ts:625-626 | reading an absent key returns nothing and changes nothing |
| EnvironmentalApis.SetIsolated | frontend/src/utils/environmentalApis.ts:616-622 | a write to one key does not change what a read of another key sees |
| EnvironmentalApis.SetOverwrites | frontend/src/utils/environmentalApis.ts:616-622 | a second write to a key replaces the first entirely |
| EnvironmentalApis.FetchKeepsOthers | frontend/src/utils/environmentalApis.ts:624-634 | a read removes at most the key it reads, and only when it returns nothing for it; every other entry is kept unchanged |
| EnvironmentalApis.ProjectAll | frontend/src/utils/environmentalApis.ts:96-103 | one coverage record per item with a value, in order, with the country, year, percentage and "World Bank" source |
| EnvironmentalApis.Insert | frontend/src/utils/environmentalApis.ts:104 | inserting into a year-descending list keeps it descending and adds exactly that record |
| EnvironmentalApis.SortByYearDesc | frontend/src/utils/environmentalApis.ts:104 | `sort((a, b) => b.year - a.year)` yields a year-descending permutation of its input |
| EnvironmentalApis.SortIsStable | frontend/src/utils/environmentalApis.ts:104 | the sort is stable: records of the same year keep their input order |
| EnvironmentalApis.InsertKeepsYearOrder | frontend/src/utils/environmentalApis.ts:104 | insertion keeps the relative order of the records of every year |
| EnvironmentalApis.SortHead | frontend/src/utils/environmentalApis.ts:104 | the head of the sorted list is the first record with the greatest year |
| EnvironmentalApis.RecordsCons | frontend/src/utils/environmentalApis.ts:94-103 | the filter-then-map keeps an item exactly when its value is not null, in order |
| EnvironmentalApis.RecordFromItem | frontend/src/utils/environmentalApis.ts:94-103 | every record comes from an item with a value |
| EnvironmentalApis.LatestIsFirstMax | frontend/src/utils/environmentalApis.ts:94-104 | the item the Python latest-year selection picks is, as a record, the first record of greatest year |
| EnvironmentalApis.WorldBankHeadIsLatest | frontend/src/utils/environmentalApis.ts:83-104 | the first record of the World Bank list is the observation `backend/ForestMonitor.py` prints for the same series |
| EnvironmentalApis.WorldBankEmptyIffNoValue | frontend/src/utils/environmentalApis.ts:92-95 | the World Bank list is empty exactly when no item has a value, i.e. when the Python selection finds nothing |
| EnvironmentalApis.IucnRecord | frontend/src/utils/environmentalApis.ts:214-221 | each species becomes one record, flagged threatened for VU, EN, CR and extinct for EX, EW (never both), in the requested region or "Global" |
| EnvironmentalApis.IucnRedListData | frontend/src/utils/environmentalApis.ts:197-226 | no API key or a failed request gives the empty list; otherwise one record per species of the first 50, in order |
| Weather.FindLocationIn | frontend/src/utils/weather.ts:186 | `find` by name returns the first location of that name from the table, and nothing exactly when no location has that name |
| Weather.MapSeverity | frontend/src/utils/weather.ts:168-180 | `mapSeverity` returns one of the four levels, and "low" exactly when the lower-cased word is none of extreme, severe, moderate, minor |
| Weather.MapNwsSeverity | frontend/src/utils/weather.ts:309-317 | `mapNWSSeverity` returns one of the four levels, and "medium" for a missing or empty severity |
| Weather.NwsSeverityAgreesOnLevelWords | frontend/src/utils/weather.ts:168-317 | on the four NWS level words, in any case, the substring mapping agrees with the whole-word mapping |
| Weather.NwsSeverityWithoutLevelWord | frontend/src/utils/weather.ts:309-317 | a non-empty severity containing none of the level words is "low" under both mappings |
| Weather.SeverityIgnoresCase | frontend/src/utils/weather.ts:169-311 | both severity mappings ignore letter case |
| Weather.AlertTypeFromConditions | frontend/src/utils/weather.ts:320-325 | heat above 95 °F, else frost below 32 °F, else wind above 40 km/h picks the type; "Weather Advisory" exactly when no threshold is crossed |
| Weather.SeverityFromConditions | frontend/src/utils/weather.ts:328-332 | critical, high or medium; medium exactly when the alert condition does not hold |
| Weather.SeverityMonotoneInWind | frontend/src/utils/weather.ts:328-332 | more wind never lowers the severity |
| Weather.SynthesisedAlertIsSevere | frontend/src/utils/weather.ts:277-282 | a synthesised alert is always critical or high and never the generic advisory |
| Weather.WeatherIcon | frontend/src/utils/weather.ts:335-352 | `getWeatherIcon` returns one of the eleven icons, and the warning sign for a missing or empty event |
| Weather.WeatherIconIgnoresCase | frontend/src/utils/weather.ts:337 | the icon depends only on the lower-cased event |
| Weather.SynthesisedAlertIcon | frontend/src/utils/weather.ts:288-352 | a synthesised heat alert shows the fire icon, a frost alert the ice icon, a wind alert the wind icon |
| Weather.Round | frontend/src/utils/weather.ts:264-274 | `Math.round` returns the integer nearest its argument, halves rounded up |
| Weather.NwsAlert | frontend/src/utils/weather.ts:250-266 | an NWS feature becomes an alert at the location with its region, the mapped severity, the event's icon and the event as type or "Weather Alert" |
| Weather.SynthesisedAlert | frontend/src/utils/weather.ts:270-294 | an alert is synthesised exactly when the forecast warrants one, at the location and its region |
| Weather.TextWindNeverWarns | frontend/src/utils/weather.ts:264-277 | with the text wind speed the service sends, an alert is synthesised exactly when the temperature is above 95°F or below 32°F, never a wind alert, and it carries no wind speed |
| Weather.AlertsAt | frontend/src/utils/weather.ts:183-306 | every alert of `getWeatherData` is at the requested location |
| Weather.UnknownLocationHasNoAlerts | frontend/src/utils/weather.ts:186-305 | a name not in the table gives no alerts, whatever the service answers |
| Weather.FailedRequestHasNoAlerts | frontend/src/utils/weather.ts:207-305 | any failed request gives no alerts |
| Weather.NwsAlertsArePassedThrough | frontend/src/utils/weather.ts:249-267 | when the service reports alerts, the result is one alert per feature, in order, and nothing is synthesised |
| Weather.SynthesisOnlyWithoutNwsAlerts | frontend/src/utils/weather.ts:269-294 | without service alerts, at most one alert is synthesised, exactly when the forecast warrants it, critical or high, never the generic advisory |
| Weather.HighWindIcon | frontend/src/utils/weather.ts:335-352 | the synthesised "High Wind Advisory" event shows the wind icon |
| Weather.ExtremeHeatIcon | frontend/src/utils/weather.ts:335-352 | the synthesised "Extreme Heat Warning" event shows the fire icon |
| Weather.FreezingIcon | frontend/src/utils/weather.ts:335-352 | the synthesised "Freezing Conditions" event shows the ice icon |
| ClimateData.MonthIndex | frontend/src/utils/climateData.ts:61 | the month i months before the current one: an index below 12 that, added to i, gives the current month or the current month plus twelve |
| ClimateData.MonthIndexIsRemainder | frontend/src/utils/climateData.ts:61 | it equals `(currentMonth - i + 12) % 12`, and adding i back modulo 12 gives the current month |
| ClimateData.MonthIndexStep | frontend/src/utils/climateData.ts:59-62 | one more step back is the calendar month before |
| ClimateData.BaseFire | frontend/src/utils/climateData.ts:73-80 | the fire base risk lies between 10 and 90 |
| ClimateData.BaseDrought | frontend/src/utils/climateData.ts:82-87 | the drought base risk lies between 20 and 78, and is 20 exactly outside April to October |
| ClimateData.BaseFlood | frontend/src/utils/climateData.ts:89-96 | the flood base risk lies between 20 and 70, and is at least 40 exactly from February to May |
| ClimateData.BaseStorm | frontend/src/utils/climateData.ts:98-107 | the storm base risk lies between 25 and 70, and is at least 60 exactly in September and October |
| ClimateData.BaseRiskPeaks | frontend/src/utils/climateData.ts:73-107 | fire peaks only in September, drought only in October, floods in May, storms in October |
| ClimateData.Mentioning | frontend/src/utils/climateData.ts:120-133 | the number of locations whose risk factors mention a hazard word: at most the number of locations, and zero exactly when none does |
| ClimateData.Weight | frontend/src/utils/climateData.ts:115-133 | each hazard weight lies between 1 and 1 plus a tenth per location |
| ClimateData.LocationWeights | frontend/src/utils/climateData.ts:115-133 | the `forEach` that adds a tenth per mentioning location computes the four weights, each at least 1 |
| ClimateData.Risk | frontend/src/utils/climateData.ts:136-139 | a risk is the smaller of 100 and the rounded product of base, weight and trend: never above either, and equal to one of them |
| ClimateData.RiskInRange | frontend/src/utils/climateData.ts:51-139 | with non-negative weight and trend the risk index stays within 0 to 100 |
| ClimateData.Entry | frontend/src/utils/climateData.ts:61-147 | the entry for i months back is labelled with that month's name and has all four risks at most 100 |
| ClimateData.LatestEntries | frontend/src/utils/climateData.ts:59-148 | the n most recent months' entries number n |
| ClimateData.LatestEntriesAt | frontend/src/utils/climateData.ts:141 | because each entry is `unshift`ed, entry j of the n latest is the one for n-1-j months back |
| ClimateData.GetClimateModelData | frontend/src/utils/climateData.ts:49-151 | the eight-pass loop builds exactly the modelled eight entries, oldest first |
| ClimateData.ClimateModelShape | frontend/src/utils/climateData.ts:56-147 | eight entries, the last for the current month, entry j for the month 7-j months back, every risk at most 100 |
| ClimateData.GetClimateRiskData | frontend/src/utils/climateData.ts:13-46 | a failed request, a thrown error and a payload all end in the model data |
| ClimateData.HourOf | frontend/src/utils/climateData.ts:161 | the hour of step i is below 24 and lies eighteen hours before the current hour plus i, modulo 24 |
| ClimateData.HourLabel | frontend/src/utils/climateData.ts:162 | the label is two digits followed by ":00" |
| ClimateData.HourLabelRoundTrip | frontend/src/utils/climateData.ts:162 | `parseInt` reads the hour back from its label |
| ClimateData.TemperatureAt | frontend/src/utils/climateData.ts:161-177 | a point's time is its hour's label, and its average lies between two and four degrees below its temperature |
| ClimateData.GetTemperatureData | frontend/src/utils/climateData.ts:154-181 | the loop yields six points, step k being the point four k hours after eighteen hours ago |
| ClimateData.TemperatureSpan | frontend/src/utils/climateData.ts:160-161 | the first point is eighteen hours before the current hour, the last two hours after it |
| ClimateAlerts.SeverityColor | frontend/src/components/ClimateAlerts.tsx:116-124 | `getSeverityColor` falls back to the slate style exactly for a severity other than critical, high, medium, low |
| ClimateAlerts.SeverityBadge | frontend/src/components/ClimateAlerts.tsx:126-134 | `getSeverityBadge` falls back to the slate badge exactly for a severity other than the four |
| ClimateAlerts.StylesAgree | frontend/src/components/ClimateAlerts.tsx:116-134 | a card and its badge fall back to slate together |
| ClimateAlerts.FilteredAlerts | frontend/src/components/ClimateAlerts.tsx:145-149 | `filteredAlerts` keeps, in order, exactly the alerts whose severity is the selected one (or "all") and whose lower-cased type contains the lower-cased selected type (or "all") |
| ClimateAlerts.AllShowsEveryAlert | frontend/src/components/ClimateAlerts.tsx:146-147 | with both filters on "all" every alert is shown, in order |
| ClimateAlerts.SeverityFilterAlone | frontend/src/components/ClimateAlerts.tsx:145-149 | with the type filter on "all" the severity filter alone decides |
| ClimateAlerts.Count | frontend/src/components/ClimateAlerts.tsx:151-153 | the active count is the number of alerts |
| ClimateAlerts.CountersBounded | frontend/src/components/ClimateAlerts.tsx:151-153 | critical and high alerts together never outnumber the active ones |
| ClimateAlerts.AlertCounters | frontend/src/components/ClimateAlerts.tsx:9-153 | the six built-in alerts give two critical, two high and six active |
| ClimateAlerts.HeatSelectsHeatWave | frontend/src/components/ClimateAlerts.tsx:9-149 | the type filter "heat" shows the heat wave alone, since types are matched as substrings |
| ClimateAlerts.HeatIn | frontend/src/components/ClimateAlerts.tsx:9-147 | of the six alert types only "Heat Wave" contains "heat" |
| ForestData.FirstIndexOf | frontend/src/utils/forestData.ts:803 | the position of the first region with the given id, and none exactly when no region has it |
| ForestData.FindRegionIn | frontend/src/utils/forestData.ts:183-803 | `FOREST_REGIONS.find(r => r.id === id)` returns a region of the list with that id, the first one, and nothing exactly when none has it |
| ForestData.LocalStore.constructor | frontend/src/utils/forestData.ts:86-113 | the browser's storage starts with the given items |
| ForestData.LocalStore.SaveToCache | frontend/src/utils/forestData.ts:80-90 | `saveToCache` stores the data with the current time, or changes nothing when the browser refuses the write |
| ForestData.LocalStore.GetFromCache | frontend/src/utils/forestData.ts:93-109 | `getFromCache` returns nothing for an absent or unreadable item; removes the item and returns nothing once it is older than 24 hours; otherwise returns the data |
| ForestData.LocalStore.ClearCache | frontend/src/utils/forestData.ts:112-114 | `clearCache` removes that key alone |
| ForestData.ReadAfterSaveFresh | frontend/src/utils/forestData.ts:77-104 | a saved item is read back unchanged for 24 hours, the boundary included, and the read changes nothing |
| ForestData.ReadAfterSaveStale | frontend/src/utils/forestData.ts:99-102 | after 24 hours the read returns nothing and removes that key alone |
| ForestData.ReadMissingOrUnreadable | frontend/src/utils/forestData.ts:95-108 | an absent key and an unparsable item both read as nothing and change nothing |
| ForestData.ReadAfterClear | frontend/src/utils/forestData.ts:112-114 | a cleared key reads as nothing |
| ForestData.BuildCacheKey | frontend/src/utils/forestData.ts:117-122 | the key starts with the base and an underscore; with no parameters it is exactly that |
| ForestData.BuildCacheKeyAppend | frontend/src/utils/forestData.ts:118-121 | one more parameter appends '&' and its `key=value` text, in insertion order |
| ForestData.CoverageCacheKey | frontend/src/utils/forestData.ts:134 | the coverage key is `forest_coverage_cache_timeRange=…&region=…` |
| ForestData.RegionStatus | frontend/src/utils/forestData.ts:389-401 | the status of a change is one of improving, recovering, stable, declining, critical |
| ForestData.RegionStatusMonotone | frontend/src/utils/forestData.ts:389-401 | a larger change never gives a worse status |
| ForestData.RegionStatusBands | frontend/src/utils/forestData.ts:391-401 | each status holds on exactly one interval: above 1, (0.1, 1], (-0.1, 0.1], (-1, -0.1], at most -1 |
| ForestData.ChangeString | frontend/src/utils/forestData.ts:387 | the change text ends with '%' and contains the formatted percentage right before it |
| ForestData.ChangeStringSign | frontend/src/utils/forestData.ts:387 | the text starts with '+' exactly for a non-negative change |
| ForestData.RegionalRecord | frontend/src/utils/forestData.ts:374-408 | a measured region's record carries its name and coverage; improving and recovering regions show a '+', declining and critical ones do not |
| ForestData.CollectRegionalData | frontend/src/utils/forestData.ts:310-413 | the loop over the regions keeps one record per measured region, in region order, skipping the others |
| ForestData.GeneratedRegionalData | frontend/src/utils/forestData.ts:690-734 | the generated table has one record per forest region, in order, named after it |
| ForestData.CountryFromCoordinates | frontend/src/utils/forestData.ts:590-596 | the first matching rule names Brazil, DRC, Canada or Indonesia, and "Region" when none matches |
| ForestData.CountryRulesExclusive | frontend/src/utils/forestData.ts:590-596 | no point satisfies two rules, so each country is returned exactly when its own rule holds, and "Region" exactly when none does |
| ForestData.RegionCountries | frontend/src/utils/forestData.ts:32-596 | the region centres map to Brazil, DRC, Canada, Indonesia and Brazil |
| ForestData.DaysInMonth | frontend/src/utils/forestData.ts:656 | every month has 28 to 31 days |
| ForestData.SetMonth | frontend/src/utils/forestData.ts:656 | `setMonth` yields a valid date, rolling over into the next month when the day does not exist |
| ForestData.MonthCount | frontend/src/utils/forestData.ts:609-625 | the time range gives 1, 3, 6 or 12 months, and 6 for any other range |
| ForestData.MonthsFromNumber | frontend/src/utils/forestData.ts:654-661 | the label k months from today is today's month number plus k |
| ForestData.GenerateForestDataAsWritten | frontend/src/utils/forestData.ts:654-661 | as written, each label is today's date moved by `setMonth`, keeping the day of the month |
| ForestData.AsWrittenRepeatsMonths | frontend/src/utils/forestData.ts:655-661 | on 31 October 2026 the six labels repeat July and October and skip June and September |
| ForestData.GenerateForestData | frontend/src/utils/forestData.ts:654-661 | the corrected generator of the finding below: one point per month of the range, the i-th labelled i-(months-1) calendar months from today |
| ForestData.GeneratedMonthsConsecutive | frontend/src/utils/forestData.ts:654-661 | with the correction of the finding below, the labels run through consecutive months, ending with today's |
| ForestData.RegionBase | frontend/src/utils/forestData.ts:630-651 | unknown regions and 'global' keep the defaults 76, 2 and 1.8; every base value is positive |
| ForestData.GenerateSatelliteAlerts | frontend/src/utils/forestData.ts:739-811 | the alerts are a subsequence of the five; all of them for 'global' or an unknown id; else exactly those whose location contains the region's name, ignoring case |
| ForestData.SoutheastRegion | frontend/src/utils/forestData.ts:48-52 | the 'southeast' id names the Southeast Asia region |
| ForestData.SoutheastHasNoAlerts | frontend/src/utils/forestData.ts:774-807 | 'southeast' gets no alerts, since "Borneo, Indonesia" does not mention "Southeast Asia" |
| ForestData.NoAlertInSoutheastAsia | frontend/src/utils/forestData.ts:752-806 | none of the five alert locations contains "southeast asia" |
| ForestData.CacheFirst | frontend/src/utils/forestData.ts:136-289 | a cached list is returned unchanged; offline with nothing cached gives the empty list; otherwise the API result or the fallback is saved and returned |
| ForestData.GetForestCoverageData | frontend/src/utils/forestData.ts:129-290 | a fresh entry under the time range and region key is returned as is; with none, offline gives an empty series, online gives the fetched series or else the series `generateForestData` builds as written (one point per month of the range); the store drops an expired entry and, online, saves the result |
| ForestData.GetRegionalForestData | frontend/src/utils/forestData.ts:295-438 | a fresh regional entry is returned as is; with none, offline gives nothing, online gives the per-region results when the key is set and some region answered, else the generated regional data, never empty; the store drops an expired entry and, online, saves the result |
| ForestData.GetSatelliteAlerts | frontend/src/utils/forestData.ts:444-585 | a fresh entry under the region key is returned as is; with none, offline gives no alerts, online gives the API alerts when there are some, else the generated alerts for the region; the store drops an expired entry and, online, saves the result |
| ProjectTracker.StatusColor | src/components/ProjectTracker.tsx:108-116 | `getStatusColor` gives each of active, completed, planning, paused its own style, and the slate style exactly for any other status |
| ProjectTracker.StatusColorsDistinct | src/components/ProjectTracker.tsx:108-116 | different known statuses have different badges |
| ProjectTracker.ProgressColor | src/components/ProjectTracker.tsx:118-123 | `getProgressColor` is emerald exactly from 80, blue exactly on [60, 80), amber on [40, 60), red below 40 |
| ProjectTracker.ProgressColorMonotone | src/components/ProjectTracker.tsx:118-123 | more progress never gives a lower band |
| ProjectTracker.FilteredProjects | src/components/ProjectTracker.tsx:125-127 | `filteredProjects` keeps, in order, exactly the projects with the selected status, or all of them under "all" |
| ProjectTracker.AllShowsEveryProject | src/components/ProjectTracker.tsx:125-127 | "all" shows every project, in order |
| ProjectTracker.StatusFilterExact | src/components/ProjectTracker.tsx:125-230 | any other choice shows exactly the projects with that status, as many as that status occurs |
| ProjectTracker.StatusCount | src/components/ProjectTracker.tsx:211-230 | the number of projects with a status is the number of times that status occurs |
| ProjectTracker.ActiveCount | src/components/ProjectTracker.tsx:211 | the active-projects card counts at most all projects |
| ProjectTracker.ActiveCountIsStatusCount | src/components/ProjectTracker.tsx:125-211 | the card shows as many projects as the filter set to "active" |
| ProjectTracker.ThreeActiveProjects | src/components/ProjectTracker.tsx:10-211 | three of the five projects are active |
| ProjectTracker.TotalStats | src/components/ProjectTracker.tsx:129-136 | the `reduce` from zero totals gives the zero totals on no projects |
| ProjectTracker.TotalStatsFields | src/components/ProjectTracker.tsx:129-136 | each total is the sum of its field over all projects |
| ProjectTracker.TotalStatsAppend | src/components/ProjectTracker.tsx:129-136 | the totals of two lists together are the sums of their totals |
| ProjectTracker.TotalStatsSplit | src/components/ProjectTracker.tsx:125-136 | splitting the projects by any test splits the totals |
| ProjectTracker.ProjectTotals | src/components/ProjectTracker.tsx:10-136 | the overview of the five projects: budget 810000, spent 511050, 45250 trees, 353 ha, 769 t of carbon, 123 jobs |
| CarbonCalculator.RatesOf | frontend/src/components/CarbonCalculator.tsx:19-29 | a species' own rates when the table has them, the mixed native rates otherwise |
| CarbonCalculator.CalculateCarbon | frontend/src/components/CarbonCalculator.tsx:28-34 | trees are area times trees per hectare, total carbon is the annual carbon times the age, and a new project has none |
| CarbonCalculator.UnknownSpeciesIsMixedNative | frontend/src/components/CarbonCalculator.tsx:29 | a species without rates of its own is computed exactly as a mixed native one |
| CarbonCalculator.CarbonMonotoneInAge | frontend/src/components/CarbonCalculator.tsx:30-32 | for non-negative area and density, carbon is never negative and grows with age |
| CarbonCalculator.TotalStatsAppend | frontend/src/components/CarbonCalculator.tsx:47-55 | the running sums over two lists one after the other add up, field by field |
| CarbonCalculator.TotalsAfterAdd | frontend/src/components/CarbonCalculator.tsx:38-55 | adding a project adds its carbon, trees, area and annual carbon to the totals |
| CarbonCalculator.ProjectChartData | frontend/src/components/CarbonCalculator.tsx:57-64 | one chart entry per project, in order, with its name, total and annual carbon |
| CarbonCalculator.SpeciesOf | frontend/src/components/CarbonCalculator.tsx:66-72 | the species of each project, in order |
| CarbonCalculator.CarbonBySpecies | frontend/src/components/CarbonCalculator.tsx:66-72 | one entry per distinct species, each paired with the summed carbon of that species' projects; no species twice, only project species, and every project's species present |
| CarbonCalculator.CarbonBySpeciesInOrder | frontend/src/components/CarbonCalculator.tsx:66-72 | entries come in order of first appearance: an earlier entry's species occurs in the projects before any project of a later entry's species |
| CarbonCalculator.CarbonBySpeciesTotal | frontend/src/components/CarbonCalculator.tsx:47-72 | the carbon column of the per-species entries adds up to the total carbon of the overview |
| CarbonCalculator.CarbonOfAbsent | frontend/src/components/CarbonCalculator.tsx:66-72 | a species no project has carries no carbon |
| CarbonCalculator.ProjectionData | frontend/src/components/CarbonCalculator.tsx:74-77 | the projection has twenty years |
| CarbonCalculator.ProjectionGrowsLinearly | frontend/src/components/CarbonCalculator.tsx:74-77 | it starts at the current year with one year's carbon, each year adds the annual carbon, and the twentieth is twenty times it |
| CarbonCalculator.Without | frontend/src/components/CarbonCalculator.tsx:43-45 | the projects other than those with that identifier, in order |
| CarbonCalculator.WithoutAbsent | frontend/src/components/CarbonCalculator.tsx:43-45 | removing an identifier no project has changes nothing |
| CarbonCalculator.Calculator.constructor | frontend/src/components/CarbonCalculator.tsx:6-17 | the two initial projects and the empty form |
| CarbonCalculator.Calculator.AddProject | frontend/src/components/CarbonCalculator.tsx:36-41 | a form with a name, a species and a positive area is appended as a project identified by the time and the form is reset; otherwise nothing changes |
| CarbonCalculator.Calculator.RemoveProject | frontend/src/components/CarbonCalculator.tsx:43-45 | the projects with that identifier are dropped and the form is kept |
| EducationHub.CategoryTabs | frontend/src/components/EducationHub.tsx:116-124 | seven tabs: "all" counting every course, then the six categories with their names, in order |
| EducationHub.CategoryCounts | frontend/src/components/EducationHub.tsx:116-137 | each tab counts the courses of its category, as many as the filter shows for it, and "all" counts what the unfiltered list shows |
| EducationHub.FilteredCourses | frontend/src/components/EducationHub.tsx:135-137 | `filteredCourses` keeps, in order, exactly the courses of the selected category, or all of them under "all" |
| EducationHub.AllShowsEveryCourse | frontend/src/components/EducationHub.tsx:135-137 | "all" shows every course, in order |
| EducationHub.CoursesByCategory | frontend/src/components/EducationHub.tsx:8-105 | the six courses are in the six categories, one each, in tab order |
| EducationHub.OneCoursePerCategory | frontend/src/components/EducationHub.tsx:116-124 | with one course per category, every category tab counts one and "all" counts six |
| EducationHub.CompletedCount | frontend/src/components/EducationHub.tsx:139 | the completed counter counts at most all courses |
| EducationHub.InProgressCount | frontend/src/components/EducationHub.tsx:140 | the in-progress counter counts at most all courses |
| EducationHub.ProgressCounters | frontend/src/components/EducationHub.tsx:139-140 | no course is both completed and in progress, so the two counters never exceed the courses |
| EducationHub.CourseCounters | frontend/src/components/EducationHub.tsx:8-140 | the six courses give one completed and two in progress |
| EducationHub.ActionLabel | frontend/src/components/EducationHub.tsx:325-340 | "Start Course" exactly at no progress, "View Certificate" exactly at 100, "Continue Learning" otherwise |
| EducationHub.ActionLabelMatchesCounters | frontend/src/components/EducationHub.tsx:139-340 | a completed course offers its certificate, a course in progress offers to continue |
| EducationHub.LevelColor | frontend/src/components/EducationHub.tsx:126-133 | `getLevelColor` gives each of beginner, intermediate, advanced its badge, and the slate badge exactly for any other level |
| EducationHub.EarnedCount | frontend/src/components/EducationHub.tsx:215 | the achievements card counts at most all achievements |
| EducationHub.ThreeAchievementsEarned | frontend/src/components/EducationHub.tsx:107-215 | three of the six achievements are earned |
| EducationHub.TotalHoursIsSum | frontend/src/components/EducationHub.tsx:141 | `totalHours` is the sum of the numbers the durations start with, read by `parseInt` without a radix (base 16 after "0x"), and NaN exactly when some duration does not start with one |
| EducationHub.HoursOf | frontend/src/components/EducationHub.tsx:141 | `parseInt` reads "4 hours" as 4, with or without a radix |
| EducationHub.CourseHours | frontend/src/components/EducationHub.tsx:8-141 | the six courses take 33 hours |
| EducationHub.TopicChips | frontend/src/components/EducationHub.tsx:310-319 | the first three topics are shown, and "+k more" appears exactly when there are more than three, k being the topics not shown |
| EducationHub.ChipsAccountForEveryTopic | frontend/src/components/EducationHub.tsx:315-319 | the number in "+k more" reads back as the number of topics not shown |
| EducationHub.CourseLevelsKnown | frontend/src/components/EducationHub.tsx:8-133 | every course's level has a badge of its own, never the fallback |
| EducationHub.CoursesByProgress | frontend/src/components/EducationHub.tsx:8-105 | of the six courses only the last is completed, and the second and fourth are in progress |
| ChatPage.FilteredCreateUsers | frontend/src/components/Chat/ChatPage.tsx:157-161 | the "new group chat" list keeps, in order, exactly the users whose e-mail (or user id when there is none) contains the search, ignoring case |
| ChatPage.FilteredAddUsers | frontend/src/components/Chat/ChatPage.tsx:163-169 | the "add users" list keeps, in order, exactly the users who are not members and whose e-mail or user id contains the search, ignoring case |
| ChatPage.FilteredMembers | frontend/src/components/Chat/ChatPage.tsx:171-173 | the members panel keeps, in order, exactly the members whose nickname (or user id) contains the search, ignoring case |
| ChatPage.EmptySearchMatches | frontend/src/components/Chat/ChatPage.tsx:160-172 | every key contains the empty search |
| ChatPage.EmptySearchShowsAll | frontend/src/components/Chat/ChatPage.tsx:157-173 | an empty search shows every user, every non-member and every member |
| ChatPage.SearchIgnoresCase | frontend/src/components/Chat/ChatPage.tsx:157-161 | a lower-cased search shows the same users |
| ChatPage.EveryoneMemberNothingToAdd | frontend/src/components/Chat/ChatPage.tsx:163-164 | once every user is a member, the "add users" dialog offers nobody |
| ChatPage.Toggle | frontend/src/components/Chat/ChatPage.tsx:209-318 | ticking appends the user id; unticking removes every occurrence of it and keeps the other ids in order |
| ChatPage.UntickUndoesTick | frontend/src/components/Chat/ChatPage.tsx:209-318 | unticking a user just ticked restores the selection from before |
| ChatPage.UntickIdempotent | frontend/src/components/Chat/ChatPage.tsx:213-316 | unticking twice is unticking once |
| ChatPage.Page.constructor | frontend/src/components/Chat/ChatPage.tsx:11-29 | the initial values of the state hooks |
| ChatPage.Page.FetchChannels | frontend/src/components/Chat/ChatPage.tsx:40-46 | the channel list the service answers replaces the shown one; an error changes nothing |
| ChatPage.Page.FetchAllUsers | frontend/src/components/Chat/ChatPage.tsx:48-55 | the application's users replace the known ones; an error changes nothing |
| ChatPage.Page.OpenChannel | frontend/src/components/Chat/ChatPage.tsx:57-73 | the channel becomes current, its last messages (none on error) replace the shown ones, and its members replace the shown members |
| ChatPage.Page.SendMessage | frontend/src/components/Chat/ChatPage.tsx:75-88 | nothing is sent when the text is blank or no channel is open; otherwise the untrimmed text is sent, and on success it is appended and the input cleared |
| ChatPage.Page.ToggleCreateSelection | frontend/src/components/Chat/ChatPage.tsx:209-215 | a checkbox change in the "new group chat" form updates the selection as `Toggle` says and nothing else |
| ChatPage.Page.ToggleAddSelection | frontend/src/components/Chat/ChatPage.tsx:312-318 | a checkbox change in the "add users" dialog updates its selection and nothing else |
| ChatPage.Page.CreateGroupChannel | frontend/src/components/Chat/ChatPage.tsx:57-109 | nothing happens without a name or a selected user; otherwise a non-distinct channel with that name and selection is requested, and on success the form is closed and cleared and the new channel is opened: it becomes current, its loaded messages (none when the load fails) and its members replace the shown ones |
| ChatPage.Page.DeleteGroupChannel | frontend/src/components/Chat/ChatPage.tsx:111-124 | only with a channel open and the deletion confirmed is it deleted; success leaves no channel, messages or members; otherwise nothing changes |
| ChatPage.Page.RemoveUser | frontend/src/components/Chat/ChatPage.tsx:126-135 | nothing happens without an open channel; otherwise the user is removed and the new member list replaces the shown one |
| ChatPage.Page.OpenAddModal | frontend/src/components/Chat/ChatPage.tsx:137-141 | the dialog opens with an empty search and selection, so it offers every non-member |
| ChatPage.Page.HandleAddSubmit | frontend/src/components/Chat/ChatPage.tsx:143-154 | nothing happens without an open channel or a selection; otherwise the selection is invited, and when the new members arrive they replace the shown ones and the dialog closes |
| EcoAI.CountryName | frontend/src/components/EcoAI.tsx:434-448 | a known code gives its country name, any other code is shown unchanged |
| EcoAI.CountryNamesDistinct | frontend/src/components/EcoAI.tsx:435-446 | no two of the ten codes share a display name |
| EcoAI.UnknownCodeShownAsIs | frontend/src/components/EcoAI.tsx:447 | an unknown code is shown as itself, so the unknown code "Global" reads like "WLD" |
| EcoAI.AfterSend | frontend/src/components/EcoAI.tsx:466-486 | an accepted send keeps the conversation, then appends the user's question and one loading placeholder |
| EcoAI.AfterReply | frontend/src/components/EcoAI.tsx:516-549 | after the reply no message is a placeholder, the reply is the last message, the rest is a subsequence of the old conversation, and every message that was not a placeholder is still there |
| EcoAI.SendThenReply | frontend/src/components/EcoAI.tsx:466-549 | from a conversation with no placeholder, a send and its reply append exactly the question and the answer |
| EcoAI.SendAddsPlaceholder | frontend/src/components/EcoAI.tsx:478-486 | a send adds exactly one placeholder |
| EcoAI.ReplyClearsPlaceholders | frontend/src/components/EcoAI.tsx:518-532 | a reply leaves no placeholder |
| EcoAI.Truncate | frontend/src/components/EcoAI.tsx:853 | content of at most 200 characters is kept; longer content becomes its first 200 characters followed by "..." |
| EcoAI.FormatHistory | frontend/src/components/EcoAI.tsx:848-857 | the loop builds the history context: empty without history, otherwise the header and one line per message of the last five |
| EcoAI.RoleLabels | frontend/src/components/EcoAI.tsx:854 | the roles read USER and ASSISTANT in the history |
| EcoAI.HistoryEmptyIff | frontend/src/components/EcoAI.tsx:849-857 | the history context is empty if and only if there is no history |
| EcoAI.HistoryIgnoresOlder | frontend/src/components/EcoAI.tsx:852 | messages before the last five never change the history context |
| EcoAI.JoinLines | frontend/src/components/EcoAI.tsx:834 | the joined context starts with its first part |
| EcoAI.FormatEnvironmentalData | frontend/src/components/EcoAI.tsx:565-569 | without data the context is the fixed "no environmental data" notice; with data it starts with the first section |
| EcoAI.TotalSteps | frontend/src/components/EcoAI.tsx:98-113 | the load visits 18 locations (8 monitored plus 10) and counts 144 steps |
| EcoAI.CountLocation | frontend/src/components/EcoAI.tsx:138-315 | each location adds exactly eight to the counter, in eight reports when its first fetch works and in one when it fails; reports stay increasing |
| EcoAI.CountSteps | frontend/src/components/EcoAI.tsx:113-315 | over all locations the counter ends at eight per location, reports are strictly increasing and positive, and every multiple of eight up to the total is reported |
| EcoAI.PercentBounds | frontend/src/components/EcoAI.tsx:155 | progress stays within 0 to 100 and reads 100 at the last step |
| EcoAI.PercentMonotone | frontend/src/components/EcoAI.tsx:155 | progress grows strictly with the counter |
| EcoAI.EcoAssistant.constructor | frontend/src/components/EcoAI.tsx:46-76 | the page opens with the welcome message only, no input, no data, nothing loading |
| EcoAI.EcoAssistant.Input | frontend/src/components/EcoAI.tsx:1036-1037 | typing replaces the question in the input box and changes nothing else |
| EcoAI.EcoAssistant.SendMessage | frontend/src/components/EcoAI.tsx:463-500 | a blank question or one sent while waiting changes nothing; otherwise the model is asked with the trimmed question, the ten previous messages and the data, the question and placeholder are shown and the input is cleared; exactly one placeholder exists while waiting |
| EcoAI.EcoAssistant.ReceiveReply | frontend/src/components/EcoAI.tsx:514-553 | the reply replaces the placeholder and the next question may be sent |
| EcoAI.EcoAssistant.LoadEnvironmentalData | frontend/src/components/EcoAI.tsx:92-431 | the counter ends at the 144-step total, the data is kept, the summary message is appended and the progress indicator is reset |
| Text.TrimEmptyIffBlank | frontend/src/components/EcoAI.tsx:464 | the trimmed question is empty exactly when it is white space only, which is when the send is refused |
| Text.OrElse | frontend/src/components/EcoAI.tsx:447 | `a \|\| b` on a string gives a when it is present and non-empty, b otherwise |

## Left out

- **Network I/O.** HTTP requests (World Bank, GBIF, iNaturalist, NWS, NOAA, IUCN, Open-Meteo and the rest) are not performed. Their outcome, success with a payload or failure, is a parameter of the operation that awaits it.
- **Clock and randomness.** The clock (`Date.now`, `new Date`) and random draws (`Math.random`) are parameters. Identifiers and time stamps derived from them are left out.
- **Floating point.** JavaScript and Python floating-point arithmetic is modelled by exact `real` or `int` arithmetic. Rounding of `toFixed`, unit conversions and `parseFloat` are not modelled. `Math.round` is modelled on reals.
- **Transcendental terms.** `Math.pow`, `Math.sin` and `Math.cos` in the climate model and the temperature curve are parameters (`trend`, the daily swing). Only the index arithmetic, the tables and the caps around them are modelled.
- **Forest data point values.** Of the forest data points only the month labels are modelled. Their coverage, loss and gain formulas are floating-point arithmetic over random draws.
- **Case mapping.** `toLowerCase` and `toUpperCase` map ASCII letters only.
- **String length.** A Dafny string counts code points, while a JavaScript string counts UTF-16 code units. The two differ for characters outside the Basic Multilingual Plane, such as the emoji the assistant's messages carry (for instance the summary message of `EcoAI.tsx`, line 399).
- EcoAI.Truncate: counts 200 code points where `substring` counts 200 UTF-16 units, so content with emoji is cut later than in the source, and a cut that would split a surrogate pair in the source is not modelled.
- EcoAI.HistoryLine: each history line is cut by `EcoAI.Truncate`, so it inherits the same difference for content with emoji.
- **Object key order.** Objects list integer-like keys (such as "2020") in numeric order before the other keys. The histograms are modelled with insertion order for all keys; status names are not integer-like.
- **Prototype keys.** A lookup in an object literal also finds inherited properties such as "constructor". The table lookups (species rates, country names, colours) are modelled as plain maps, without those keys.
- **Dates read as integers.** The World Bank `date` field read with `parseInt` (`environmentalApis.ts`) or `int` (`ForestMonitor.py`) is taken as an already-parsed integer year. A date that does not parse is not modelled.
- **Date formatting.** `toLocaleDateString` is not modelled; a month label is the month and the year.
- **Weather wind speed.** The NWS forecast sends the wind speed as text with a unit ("10 mph"), so multiplying it by 1.60934 in `weather.ts` gives NaN, and the wind test (line 277) never holds. The forecast's wind speed is an optional number: none stands for that text, and `Weather.TextWindNeverWarns` states what follows from it. The wind branches of `Weather.AlertsAt`, `Weather.SynthesisedAlert` and `Weather.SynthesisedAlertIcon`, and `Weather.SeverityMonotoneInWind`, describe a numeric wind speed the service does not send.
- **Assistant prompt.** The text of the assistant's data context beyond the case without data, and the rest of the prompt around the history, is not modelled.
- EcoAI.FormatEnvironmentalData: with data, the contract states only that the context starts with its first section. How each section is written is not modelled.
- EcoAI.JoinLines: states only that the joined text starts with the first part.
- **The language model.** The Gemini call is not modelled. `EcoAI.EcoAssistant.ReceiveReply` takes its answer, or the error notice, as a parameter.
- EcoAI.EcoAssistant.LoadEnvironmentalData: the collected data and the summary message are parameters, and only the progress counter, the stored data and the appended message are modelled. The error path of the whole load (lines 405-426 of `EcoAI.tsx`) is not modelled. The eight fetch blocks of a location are modelled by `EcoAI.CountLocation`: one outcome says whether the first fetch worked, since the seven later fetches catch their own failures.
- **Chat service.** The Sendbird client calls are not modelled. Their answers are handler parameters.
- **Chat refresh.** The channel list is refreshed after a create, delete or add. That refresh is a separate `ChatPage.Page.FetchChannels` call, not part of those handlers. The page does not await the refresh or the opening of a created channel; the model applies the opening at once.
- **Chat presentation.** The members panel's visibility flag and all JSX rendering are not modelled.
- **Console output.** Logging to the console is not modelled, apart from the lines `backend/ForestMonitor.py` prints, which are its output.
- **Storage serialisation.** `localStorage` JSON serialisation is not modelled. The store is a map, and an unreadable entry is a distinct stored value.
- ClimateData.ClimateModelShape: states the months of the eight entries through `MonthIndex`, not through `Date` objects.
- **Real-time monitor.** `RealTimeEnvironmentalMonitor`, timers, the `setTimeout` rate-limit delay and the `Promise.allSettled` fan-out are concurrency and are not modelled.
- **Server process.** `listen`, `onError` and `process.exit` in `backend/server.js` are process handling and are not modelled.

## Findings

| source | as written | input that shows it | evidently intended | confidence | as-written member | corrected member |
|---|---|---|---|---|---|---|
| frontend/src/utils/forestData.ts:655-661 | each month label is a copy of today moved with `setMonth`, which keeps the day of the month, so a day the target month lacks rolls into the next month | today 31 October 2026 and "6months": the labels read May, July, July, August, October, October | the last n months, consecutive, ending with the current one | not executed | ForestData.AsWrittenRepeatsMonths | ForestData.GeneratedMonthsConsecutive |

`ForestData.GetForestCoverageData` keeps the generator as written (`ForestData.GenerateForestDataAsWritten`), as the page does. `ForestData.GenerateForestData` is the corrected generator.
