/** `frontend/src/components/EcoAI.tsx`: the environmental assistant. Modelled here are
    the country names, the conversation (a user message followed by a loading
    placeholder, then exactly one reply in place of the placeholder), the progress counter
    of the environmental data load, the conversation history handed to the language
    model, and the data context for when nothing is loaded. The language model, the
    fetches and the clock are outside the model: what they answer is a parameter. */
module EcoAI {
  import opened Wrappers
  import Text
  import Seqs
  import Weather

  // ---------------------------------------------------------------------------------
  // Country names
  // ---------------------------------------------------------------------------------

  const CountryNames: map<string, string> := map[
    "WLD" := "Global", "BRA" := "Brazil", "CAN" := "Canada", "RUS" := "Russia",
    "IDN" := "Indonesia", "COD" := "DR Congo", "PER" := "Peru", "COL" := "Colombia",
    "BOL" := "Bolivia", "VEN" := "Venezuela"]

  /** `getCountryName`: `countryMap[code] || code`. */
  function CountryName(code: string): (r: string)
    ensures code in CountryNames ==> r == CountryNames[code]
    ensures code !in CountryNames ==> r == code
  {
    Text.OrElse(if code in CountryNames then Some(CountryNames[code]) else None, code)
  }

  /** The ten codes are told apart by their names: two known codes with the same name
      are the same code. */
  lemma CountryNamesDistinct(a: string, b: string)
    requires a in CountryNames && b in CountryNames && a != b
    ensures CountryName(a) != CountryName(b)
  {
    var n := CountryNames;
    assert n.Keys == {"WLD", "BRA", "CAN", "RUS", "IDN", "COD", "PER", "COL", "BOL", "VEN"};
    assert n["BRA"][1] == 'r' && n["BOL"][1] == 'o';
    assert n["CAN"][1] == 'a' && n["COL"][1] == 'o';
  }

  /** A code the map does not know is shown as it is, so an unknown code that happens to
      be a country name is shown like the code of that country. */
  lemma UnknownCodeShownAsIs()
    ensures CountryName("Global") == CountryName("WLD")
  {
  }

  // ---------------------------------------------------------------------------------
  // The conversation
  // ---------------------------------------------------------------------------------

  datatype Role = User | Assistant

  /** The role as the message stores it. */
  function RoleName(role: Role): string {
    match role
    case User => "user"
    case Assistant => "assistant"
  }

  /** A chat message; the id and the timestamp come from the clock and are left out. */
  datatype Message = Message(role: Role, content: string, isLoading: bool)

  const LoadingMessage := Message(Assistant, "", true)

  function IsLoading(): Message -> bool {
    (m: Message) => m.isLoading
  }

  function NotLoading(): Message -> bool {
    (m: Message) => !m.isLoading
  }

  /** The messages after a send is accepted: the (trimmed) question, then a loading
      placeholder. */
  function AfterSend(messages: seq<Message>, question: string): (r: seq<Message>)
    ensures |r| == |messages| + 2 && r[..|messages|] == messages
    ensures r[|messages|] == Message(User, question, false)
    ensures r[|messages| + 1].isLoading
  {
    messages + [Message(User, question, false), LoadingMessage]
  }

  /** The messages once the answer (or the error notice) arrives: every loading
      placeholder is gone and exactly one assistant message is added at the end. */
  function AfterReply(messages: seq<Message>, content: string): (r: seq<Message>)
    ensures r != [] && r[|r| - 1] == Message(Assistant, content, false)
    ensures forall i :: 0 <= i < |r| ==> !r[i].isLoading
    ensures Seqs.IsSubsequence(r[..|r| - 1], messages)
    ensures forall i :: 0 <= i < |messages| && !messages[i].isLoading ==> messages[i] in r
  {
    var kept := Seqs.Filter(messages, NotLoading());
    Seqs.FilterMembers(messages, NotLoading());
    var r := kept + [Message(Assistant, content, false)];
    assert r[..|r| - 1] == kept;
    r
  }

  /** The number of loading placeholders among the messages. */
  function LoadingCount(messages: seq<Message>): nat {
    |Seqs.Filter(messages, IsLoading())|
  }

  /** A question and its answer: starting from a conversation with no placeholder, the
      question and then the answer end up appended, and nothing else changes. */
  lemma SendThenReply(messages: seq<Message>, question: string, content: string)
    requires forall i :: 0 <= i < |messages| ==> !messages[i].isLoading
    ensures AfterReply(AfterSend(messages, question), content) ==
            messages + [Message(User, question, false), Message(Assistant, content, false)]
  {
    var q := Message(User, question, false);
    Seqs.FilterAppend(messages, [q, LoadingMessage], NotLoading());
    Seqs.FilterAll(messages, NotLoading());
    assert Seqs.Filter([q, LoadingMessage], NotLoading()) == [q];
  }

  /** A send adds one placeholder. */
  lemma SendAddsPlaceholder(messages: seq<Message>, question: string)
    ensures LoadingCount(AfterSend(messages, question)) == LoadingCount(messages) + 1
  {
    var q := Message(User, question, false);
    Seqs.FilterAppend(messages, [q, LoadingMessage], IsLoading());
    assert messages + [q, LoadingMessage] == AfterSend(messages, question);
    assert Seqs.Filter([q, LoadingMessage], IsLoading()) == [LoadingMessage];
  }

  /** A reply leaves no placeholder. */
  lemma ReplyClearsPlaceholders(messages: seq<Message>, content: string)
    ensures LoadingCount(AfterReply(messages, content)) == 0
  {
    Seqs.FilterNone(AfterReply(messages, content), IsLoading());
  }

  // ---------------------------------------------------------------------------------
  // The conversation history handed to the language model
  // ---------------------------------------------------------------------------------

  const HistoryHeader := "\nCONVERSATION HISTORY:\n"

  /** A message longer than 200 characters is cut to its first 200 and marked with
      "...". */
  function Truncate(content: string): (r: string)
    ensures |content| <= 200 ==> r == content
    ensures |content| > 200 ==> |r| == 203 && r[..200] == content[..200] && r[200..] == "..."
  {
    if |content| > 200 then content[..200] + "..." else content
  }

  /** One line of the history: the role in capitals, a colon, the (cut) content. */
  function HistoryLine(m: Message): string {
    Text.ToUpper(RoleName(m.role)) + ": " + Truncate(m.content) + "\n"
  }

  function Lines(history: seq<Message>): string {
    if history == [] then ""
    else Lines(history[..|history| - 1]) + HistoryLine(history[|history| - 1])
  }

  /** The history context: empty without history, otherwise the header and one line for
      each of the last five messages. */
  function HistoryContext(history: seq<Message>): string {
    if history == [] then "" else HistoryHeader + Lines(Seqs.Last(history, 5))
  }

  lemma LinesSnoc(history: seq<Message>, k: nat)
    requires k < |history|
    ensures HistoryHeader + Lines(history[..k + 1]) ==
            (HistoryHeader + Lines(history[..k])) + HistoryLine(history[k])
  {
    assert history[..k + 1][..k] == history[..k];
  }

  /** The `forEach` that builds the history context line by line. */
  method FormatHistory(history: seq<Message>) returns (context: string)
    ensures context == HistoryContext(history)
  {
    context := "";
    if |history| > 0 {
      context := HistoryHeader;
      var recent := Seqs.Last(history, 5);
      var k := 0;
      while k < |recent|
        invariant 0 <= k <= |recent|
        invariant context == HistoryHeader + Lines(recent[..k])
      {
        LinesSnoc(recent, k);
        context := context + HistoryLine(recent[k]);
        k := k + 1;
      }
      assert recent[..k] == recent;
    }
  }

  /** The two roles read "USER" and "ASSISTANT" in the history. */
  lemma RoleLabels()
    ensures Text.ToUpper(RoleName(User)) == "USER"
    ensures Text.ToUpper(RoleName(Assistant)) == "ASSISTANT"
  {
  }

  /** The history context is empty exactly when there is no history. */
  lemma HistoryEmptyIff(history: seq<Message>)
    ensures HistoryContext(history) == "" <==> history == []
  {
    if history != [] {
      assert |HistoryContext(history)| >= |HistoryHeader|;
    }
  }

  /** Only the last five messages count: older ones never reach the language model. */
  lemma HistoryIgnoresOlder(older: seq<Message>, recent: seq<Message>)
    requires |recent| >= 5
    ensures HistoryContext(older + recent) == HistoryContext(recent)
  {
    var all := older + recent;
    assert Seqs.Last(all, 5) == Seqs.Last(recent, 5) by {
      assert all[|all| - 5..] == recent[|recent| - 5..];
    }
  }

  // ---------------------------------------------------------------------------------
  // The data context
  // ---------------------------------------------------------------------------------

  const NoDataText :=
    "No environmental data available. Please load environmental data first by clicking the 'Load Environmental Data' button."

  /** Loaded environmental data, seen through the sections of text the formatter writes
      for it. */
  datatype EnvironmentalData = EnvironmentalData(sections: seq<string>)

  /** `contextParts.join('\n')`. */
  function JoinLines(parts: seq<string>): (r: string)
    ensures parts != [] ==> parts[0] <= r
  {
    if parts == [] then ""
    else if |parts| == 1 then parts[0]
    else parts[0] + "\n" + JoinLines(parts[1..])
  }

  /** `formatEnvironmentalDataForAI`: the fixed notice when nothing is loaded. */
  function FormatEnvironmentalData(data: Option<EnvironmentalData>): (r: string)
    ensures data.None? ==> r == NoDataText
    ensures data.Some? && data.value.sections != [] ==> data.value.sections[0] <= r
  {
    if data.None? then NoDataText else JoinLines(data.value.sections)
  }

  // ---------------------------------------------------------------------------------
  // The progress counter of the data load
  // ---------------------------------------------------------------------------------

  /** The locations the load visits: the monitored ones and ten more. */
  const ExpandedLocationCount := |Weather.MonitoredLocations| + 10

  /** Eight data types per location. */
  const StepsPerLocation := 8

  lemma TotalSteps()
    ensures ExpandedLocationCount == 18 && ExpandedLocationCount * StepsPerLocation == 144
  {
  }

  /** The number of progress reports: eight for a location whose first fetch works, one
      for a location skipped as a whole. */
  function ReportCount(fetched: seq<bool>): nat {
    if fetched == [] then 0
    else ReportCount(fetched[..|fetched| - 1]) + (if fetched[|fetched| - 1] then 8 else 1)
  }

  /** `(currentStep / totalSteps) * 100`. */
  function Percent(step: nat, total: nat): real
    requires total > 0
  {
    (step as real / total as real) * 100.0
  }

  /** Strictly increasing. */
  predicate Increasing(s: seq<nat>) {
    forall i, j :: 0 <= i < j < |s| ==> s[i] < s[j]
  }

  /** The reports so far: increasing, positive, and the last one is the counter. */
  predicate Reported(steps: seq<nat>, currentStep: nat) {
    && Increasing(steps)
    && (forall i :: 0 <= i < |steps| ==> 0 < steps[i] <= currentStep)
    && (steps != [] ==> steps[|steps| - 1] == currentStep)
  }

  /** One report more: the counter goes up by `delta` and is reported. */
  lemma Report(steps: seq<nat>, currentStep: nat, delta: nat)
    requires Reported(steps, currentStep) && delta > 0
    ensures Reported(steps + [currentStep + delta], currentStep + delta)
    ensures forall y :: y in steps ==> y in steps + [currentStep + delta]
  {
  }

  /** The eight blocks of one location: on success each block reports one step more;
      when the first fetch fails the location is skipped with one jump of eight. */
  method CountLocation(fetched: bool, currentStep: nat, steps: seq<nat>)
    returns (nextStep: nat, next: seq<nat>)
    requires Reported(steps, currentStep)
    ensures nextStep == currentStep + StepsPerLocation
    ensures |next| == |steps| + (if fetched then StepsPerLocation else 1)
    ensures Reported(next, nextStep)
    ensures forall y :: y in steps ==> y in next
    ensures nextStep in next
  {
    nextStep, next := currentStep, steps;
    if fetched {
      var s := 0;
      while s < StepsPerLocation
        invariant 0 <= s <= StepsPerLocation
        invariant nextStep == currentStep + s
        invariant |next| == |steps| + s
        invariant Reported(next, nextStep)
        invariant forall y :: y in steps ==> y in next
      {
        Report(next, nextStep, 1);
        nextStep := nextStep + 1;
        next := next + [nextStep];
        s := s + 1;
      }
    } else {
      Report(next, nextStep, StepsPerLocation);
      nextStep := nextStep + StepsPerLocation;
      next := next + [nextStep];
    }
    assert next[|next| - 1] == nextStep;
  }

  /** The counter of `loadEnvironmentalData` over the locations, with the outcome of
      each location's first fetch (the later fetches of a location catch their own
      failures). `steps` are the values the progress is set from. Every location adds
      exactly eight, so the counter ends at the total. */
  method CountSteps(fetched: seq<bool>) returns (currentStep: nat, steps: seq<nat>)
    ensures currentStep == StepsPerLocation * |fetched|
    ensures |steps| == ReportCount(fetched)
    ensures Reported(steps, currentStep)
    ensures forall k :: 1 <= k <= |fetched| ==> StepsPerLocation * k in steps
  {
    currentStep := 0;
    steps := [];
    var k := 0;
    while k < |fetched|
      invariant 0 <= k <= |fetched|
      invariant currentStep == StepsPerLocation * k
      invariant |steps| == ReportCount(fetched[..k])
      invariant Reported(steps, currentStep)
      invariant forall m :: 1 <= m <= k ==> StepsPerLocation * m in steps
    {
      assert fetched[..k + 1][..k] == fetched[..k];
      currentStep, steps := CountLocation(fetched[k], currentStep, steps);
      k := k + 1;
    }
    assert fetched[..k] == fetched;
  }

  /** The last report reads 100 per cent, and the reports never go past it. */
  lemma PercentBounds(step: nat, total: nat)
    requires 0 < total && step <= total
    ensures 0.0 <= Percent(step, total) <= 100.0
    ensures step == total ==> Percent(step, total) == 100.0
  {
    var q := step as real / total as real;
    assert q * (total as real) == step as real;
    assert q <= 1.0;
    if step == total {
      assert q == 1.0;
    }
  }

  /** The progress goes up with the counter. */
  lemma PercentMonotone(a: nat, b: nat, total: nat)
    requires 0 < total && a < b
    ensures Percent(a, total) < Percent(b, total)
  {
    var qa := a as real / total as real;
    var qb := b as real / total as real;
    assert qa * (total as real) == a as real;
    assert qb * (total as real) == b as real;
    assert qa < qb;
  }

  // ---------------------------------------------------------------------------------
  // The component state
  // ---------------------------------------------------------------------------------

  /** What `sendMessage` hands to the language model: the trimmed question, the last ten
      messages from before the send, and the loaded data. */
  datatype PromptRequest = PromptRequest(question: string, history: seq<Message>,
                                         data: Option<EnvironmentalData>)

  datatype Snapshot = Snapshot(messages: seq<Message>, inputMessage: string, isLoading: bool,
                               environmentalData: Option<EnvironmentalData>,
                               isDataLoading: bool, dataLoadingProgress: real)

  class EcoAssistant {
    var messages: seq<Message>
    var inputMessage: string
    var isLoading: bool
    var environmentalData: Option<EnvironmentalData>
    var isDataLoading: bool
    var dataLoadingProgress: real

    function Current(): Snapshot
      reads this
    {
      Snapshot(messages, inputMessage, isLoading, environmentalData, isDataLoading,
               dataLoadingProgress)
    }

    /** A placeholder is on screen exactly while a question waits for its answer. */
    predicate Valid()
      reads this
    {
      && (isLoading <==> exists i :: 0 <= i < |messages| && messages[i].isLoading)
      && (forall i, j ::
            (0 <= i < |messages| && 0 <= j < |messages| &&
             messages[i].isLoading && messages[j].isLoading) ==> i == j)
    }

    /** The page opens with the welcome message and nothing loaded. */
    constructor (welcome: string)
      ensures Current() == Snapshot([Message(Assistant, welcome, false)], "", false, None, false, 0.0)
      ensures Valid()
    {
      messages := [Message(Assistant, welcome, false)];
      inputMessage := "";
      isLoading := false;
      environmentalData := None;
      isDataLoading := false;
      dataLoadingProgress := 0.0;
    }

    /** Typing into the question box: its text becomes the input, nothing else
        changes. */
    method Input(text: string)
      requires Valid()
      modifies this
      ensures Valid()
      ensures Current() == old(Current()).(inputMessage := text)
    {
      inputMessage := text;
    }

    /** `sendMessage`, up to the call to the language model: nothing happens for a blank
        question or while an answer is awaited; otherwise the question and a placeholder
        are shown, the input is cleared, and the model is asked. */
    method SendMessage() returns (request: Option<PromptRequest>)
      requires Valid()
      modifies this
      ensures Valid()
      ensures request.None? <==> Text.Trim(old(inputMessage)) == "" || old(isLoading)
      ensures request.None? ==> Current() == old(Current())
      ensures request.Some? ==>
                request.value == PromptRequest(Text.Trim(old(inputMessage)), Seqs.Last(old(messages), 10),
                                               old(environmentalData))
                && Current() == old(Current()).(messages := AfterSend(old(messages), Text.Trim(old(inputMessage))),
                                                inputMessage := "", isLoading := true)
    {
      var question := Text.Trim(inputMessage);
      if question == "" || isLoading {
        return None;
      }
      var history := Seqs.Last(messages, 10);
      request := Some(PromptRequest(question, history, environmentalData));
      messages := AfterSend(messages, question);
      inputMessage := "";
      isLoading := true;
    }

    /** The rest of `sendMessage`: the answer, or the error notice, replaces the
        placeholder, and the next question may be sent. */
    method ReceiveReply(content: string)
      requires Valid() && isLoading
      modifies this
      ensures Valid()
      ensures Current() == old(Current()).(messages := AfterReply(old(messages), content), isLoading := false)
    {
      messages := AfterReply(messages, content);
      isLoading := false;
    }

    /** `loadEnvironmentalData` with one outcome of the first fetch per location: the
        counter runs to the total, the data is kept, the summary message is shown, and
        the progress indicator is reset. */
    method LoadEnvironmentalData(fetched: seq<bool>, loaded: EnvironmentalData, summary: string)
      returns (steps: seq<nat>)
      requires Valid()
      requires |fetched| == ExpandedLocationCount
      modifies this
      ensures Valid()
      ensures |steps| == ReportCount(fetched)
      ensures steps != [] && steps[|steps| - 1] == ExpandedLocationCount * StepsPerLocation
      ensures Current() == old(Current()).(messages := old(messages) + [Message(Assistant, summary, false)],
                                           environmentalData := Some(loaded),
                                           isDataLoading := false, dataLoadingProgress := 0.0)
    {
      isDataLoading := true;
      dataLoadingProgress := 0.0;
      var total;
      total, steps := CountSteps(fetched);
      assert StepsPerLocation * |fetched| in steps;
      environmentalData := Some(loaded);
      var next := messages + [Message(Assistant, summary, false)];
      if isLoading {
        var i :| 0 <= i < |messages| && messages[i].isLoading;
        assert next[i].isLoading;
      }
      messages := next;
      isDataLoading := false;
      dataLoadingProgress := 0.0;
    }
  }
}
