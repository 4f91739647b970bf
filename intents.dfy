/** Request classification of the Alexa bridge (`extractThingTalkCode`) and
    the database-backed path for ordinary intents (`getIntentFromDB`): the
    intent name is split at its last dot into device and name, the canonical
    example stored under them is looked up and its arguments are resolved from
    the request's slots. */
module Intents {
  import opened Results
  import opened Entities
  import Slots

  const Nevermind := "bookkeeping(special(nevermind))"
  const Wakeup := "bookkeeping(special(wakeup))"

  /** The parts of the webhook body the bridge reads: `request.type`,
      `request.intent.name`, `request.intent.slots`, and the request's locale. */
  datatype Request = Request(requestType: string, intentName: string, slots: map<string, AlexaSlot>, locale: string)

  /** Where a request goes: a fixed program, a free-text command (the
      `command` slot as the source passes it, or `None` when there is none),
      or the database-backed intent path. */
  datatype Route = RunProgram(program: string) | RunCommand(command: Option<AlexaSlot>) | FromDatabase(intentName: string)

  /** What is handed to the conversation: `{program}`, `{text}`, or the
      compiled `{example_id, code, entities}`. */
  datatype Input =
    | ProgramInput(program: string)
    | TextInput(text: Option<AlexaSlot>)
    | ParsedInput(exampleId: int, code: string, entities: map<string, Option<Value>>)

  /** A stored canonical example: its id and its ThingTalk source. */
  datatype ExampleRow = ExampleRow(id: int, targetCode: string)

  /** What ThingTalk makes of a dataset: the example's argument names in
      declaration order, their types, and the program in neural-network syntax. */
  datatype ParsedExample = ParsedExample(argNames: seq<string>, argTypes: map<string, SlotType>, code: string)

  /** The example store, ThingTalk's parser and the locale-to-language map. */
  datatype Database = Database(
    localeToLanguage: string -> string,
    getByIntentName: (string, string, string) -> Option<ExampleRow>,
    parseDataset: string -> ParsedExample)

  // ---------------------------------------------------------------------------
  // Splitting the intent name

  /** JavaScript's `lastIndexOf`: the last position of `c`, or -1. */
  function LastIndexOf(s: string, c: char): (r: int)
    ensures -1 <= r < |s|
    ensures r >= 0 ==> s[r] == c
    ensures forall i :: r < i < |s| ==> s[i] != c
    decreases |s|
  {
    if |s| == 0 then -1
    else if s[|s| - 1] == c then |s| - 1
    else LastIndexOf(s[..|s| - 1], c)
  }

  function Clamp(i: int, n: nat): nat {
    if i < 0 then 0 else if i > n then n else i
  }

  /** JavaScript's `substring`: both ends are clamped into the string and
      swapped when out of order. */
  function Substring(s: string, start: int, end: int): (r: string)
    ensures |r| <= |s|
    ensures 0 <= start <= end <= |s| ==> r == s[start..end]
    ensures 0 <= end <= start <= |s| ==> r == s[end..start]
    ensures start >= |s| && end >= |s| ==> r == ""
  {
    var a, b := Clamp(start, |s|), Clamp(end, |s|);
    if a <= b then s[a..b] else s[b..a]
  }

  /** The device (before the last dot) and the intent name (after it). */
  function SplitIntentName(intent: string): (r: (string, string))
    ensures r.0 <= intent && '.' !in r.1
    ensures |r.0| + |r.1| <= |intent|
  {
    var dot := LastIndexOf(intent, '.');
    (Substring(intent, 0, dot), Substring(intent, dot + 1, |intent|))
  }

  /** With a dot, device and name rejoin to the intent name and the name has no
      dot; without one, the device is empty and the name is the whole string. */
  lemma SplitIntentNameSpec(intent: string)
    ensures var (device, name) := SplitIntentName(intent);
      && ('.' in intent ==> device + "." + name == intent && '.' !in name)
      && ('.' !in intent ==> device == "" && name == intent)
  {
    var dot := LastIndexOf(intent, '.');
    if '.' in intent {
      var k :| 0 <= k < |intent| && intent[k] == '.';
      assert dot >= 0;
      assert intent == intent[..dot] + "." + intent[dot + 1..];
    } else {
      assert intent[0..|intent|] == intent;
    }
  }

  /** The split is the only one of its kind: whenever `device + "." + name`
      is the intent name and `name` has no dot, the split yields exactly them. */
  lemma SplitIntentNameUnique(intent: string, device: string, name: string)
    requires device + "." + name == intent && '.' !in name
    ensures SplitIntentName(intent) == (device, name)
  {
    var dot := LastIndexOf(intent, '.');
    assert intent[|device|] == '.';
    forall i | |device| < i < |intent| ensures intent[i] != '.' {
      assert intent[i] == name[i - |device| - 1];
    }
    assert dot == |device|;
    assert Substring(intent, 0, dot) == intent[0..|device|] == device;
    assert Substring(intent, dot + 1, |intent|) == intent[|device| + 1..|intent|] == name;
  }

  // ---------------------------------------------------------------------------
  // Classification

  /** `extractThingTalkCode` up to the database path: session end and the stop
      intent end the conversation, a launch wakes it, the raw-command intent
      passes its `command` slot through, any other intent goes to the database,
      and any request type other than these three is an error. */
  function Classify(req: Request): (r: Result<Route, Error>)
    ensures req.requestType == "SessionEndedRequest" ==> r == Success(RunProgram(Nevermind))
    ensures req.requestType == "LaunchRequest" ==> r == Success(RunProgram(Wakeup))
    ensures r.Failure? <==> req.requestType !in {"SessionEndedRequest", "LaunchRequest", "IntentRequest"}
    ensures r.Failure? ==> r.error == InvalidRequestType(req.requestType)
    ensures req.requestType == "IntentRequest" && req.intentName == "AMAZON.StopIntent" ==> r == Success(RunProgram(Nevermind))
    ensures req.requestType == "IntentRequest" && req.intentName == "org.thingpedia.command"
      ==> r == Success(RunCommand(if "command" in req.slots then Some(req.slots["command"]) else None))
    ensures r.Success? && r.value.FromDatabase? <==>
      req.requestType == "IntentRequest" && req.intentName !in {"AMAZON.StopIntent", "org.thingpedia.command"}
    ensures r.Success? && r.value.FromDatabase? ==> r.value.intentName == req.intentName
  {
    if req.requestType == "SessionEndedRequest" then Success(RunProgram(Nevermind))
    else if req.requestType == "LaunchRequest" then Success(RunProgram(Wakeup))
    else if req.requestType != "IntentRequest" then Failure(InvalidRequestType(req.requestType))
    else if req.intentName == "AMAZON.StopIntent" then Success(RunProgram(Nevermind))
    else if req.intentName == "org.thingpedia.command" then
      Success(RunCommand(if "command" in req.slots then Some(req.slots["command"]) else None))
    else Success(FromDatabase(req.intentName))
  }

  // ---------------------------------------------------------------------------
  // The database path

  /** The dataset text the stored example is parsed from: the template
      `dataset @org.thingpedia language "<language>" { <target code> }`
      around the stored ThingTalk. */
  function DatasetText(language: string, targetCode: string): string {
    "dataset @org.thingpedia language \"" + language + "\" { " + targetCode + " }"
  }

  datatype Compiled = Compiled(input: Result<Input, Error>, calls: seq<Call>)

  /** `getIntentFromDB`: look the example up under the split intent name, then
      resolve its arguments. The slot resolver is given the request's locale,
      as the source does, not the language. */
  function IntentFromDB(locale: string, intent: string, alexaSlots: map<string, AlexaSlot>,
                        db: Database, services: Services): (c: Compiled)
    requires ServicesConform(services)
    ensures var (device, name) := SplitIntentName(intent);
      var row := db.getByIntentName(db.localeToLanguage(locale), device, name);
      && (row.None? ==> c == Compiled(Failure(UnknownIntent(device, name)), []))
      && (c.input.Success? ==>
            (row.Some? && c.input.value.ParsedInput? && c.input.value.exampleId == row.value.id
             && c.input.value.code == db.parseDataset(DatasetText(db.localeToLanguage(locale), row.value.targetCode)).code))
    ensures c.input.Failure? ==> c.input.error.UnknownIntent? || Slots.SlotError(c.input.error)
  {
    var language := db.localeToLanguage(locale);
    var (device, name) := SplitIntentName(intent);
    match db.getByIntentName(language, device, name)
    case None => Compiled(Failure(UnknownIntent(device, name)), [])
    case Some(row) =>
      var parsed := db.parseDataset(DatasetText(language, row.targetCode));
      var filled := Slots.EntitiesUpTo(locale, parsed.argNames, parsed.argTypes, alexaSlots, services, |parsed.argNames|);
      var input := if filled.result.Failure? then Failure(filled.result.error)
                   else Success(ParsedInput(row.id, parsed.code, filled.result.value));
      Compiled(input, filled.calls)
  }

  /** A stored example compiles exactly when each of its arguments resolves;
      a compiled intent carries the example's id and code and one entity per
      example argument, under `SLOT_<i>`, and the example is the one stored
      under the device and name that rejoin to the intent name. */
  lemma IntentFromDBEntities(locale: string, intent: string, alexaSlots: map<string, AlexaSlot>,
                             db: Database, services: Services)
    requires ServicesConform(services)
    ensures var c := IntentFromDB(locale, intent, alexaSlots, db, services);
      var language := db.localeToLanguage(locale);
      var (device, name) := SplitIntentName(intent);
      && (db.getByIntentName(language, device, name).None? ==> c == Compiled(Failure(UnknownIntent(device, name)), []))
      && (db.getByIntentName(language, device, name).Some? ==>
        var row := db.getByIntentName(language, device, name).value;
        var parsed := db.parseDataset(DatasetText(language, row.targetCode));
        && (c.input.Success? <==> forall i :: 0 <= i < |parsed.argNames| ==>
              Slots.ResolveSlot(locale, parsed.argNames[i], parsed.argTypes, alexaSlots, services).result.Success?)
        && (c.input.Success? ==> c.input.value == ParsedInput(row.id, parsed.code, c.input.value.entities)))
      && (c.input.Success? ==>
        && db.getByIntentName(language, device, name).Some?
        && ('.' in intent ==> device + "." + name == intent)
        && var parsed := db.parseDataset(DatasetText(language, db.getByIntentName(language, device, name).value.targetCode));
           && c.input.value.ParsedInput?
           && c.input.value.entities.Keys == Slots.SlotKeys(|parsed.argNames|)
           && forall i :: 0 <= i < |parsed.argNames| ==>
                Slots.ResolveSlot(locale, parsed.argNames[i], parsed.argTypes, alexaSlots, services).result
                  == Success(c.input.value.entities[Slots.SlotKey(i)]))
  {
    var c := IntentFromDB(locale, intent, alexaSlots, db, services);
    var language := db.localeToLanguage(locale);
    var (device, name) := SplitIntentName(intent);
    SplitIntentNameSpec(intent);
    if db.getByIntentName(language, device, name).Some? {
      var row := db.getByIntentName(language, device, name).value;
      var parsed := db.parseDataset(DatasetText(language, row.targetCode));
      Slots.EntitiesUpToSucceeds(locale, parsed.argNames, parsed.argTypes, alexaSlots, services, |parsed.argNames|);
      if c.input.Success? {
        Slots.EntitiesUpToKeys(locale, parsed.argNames, parsed.argTypes, alexaSlots, services, |parsed.argNames|);
      }
    }
  }

  method GetIntentFromDB(locale: string, intent: string, alexaSlots: map<string, AlexaSlot>,
                         db: Database, services: Services) returns (r: Result<Input, Error>, calls: seq<Call>)
    requires ServicesConform(services)
    ensures Compiled(r, calls) == IntentFromDB(locale, intent, alexaSlots, db, services)
  {
    var language := db.localeToLanguage(locale);
    var dot := LastIndexOf(intent, '.');
    var device := Substring(intent, 0, dot);
    var name := Substring(intent, dot + 1, |intent|);
    var row := db.getByIntentName(language, device, name);
    if row.None? {
      return Failure(UnknownIntent(device, name)), [];
    }
    var parsed := db.parseDataset(DatasetText(language, row.value.targetCode));
    var entities;
    entities, calls := Slots.AlexaSlotsToEntities(locale, parsed.argNames, parsed.argTypes, alexaSlots, services);
    if entities.Failure? {
      return Failure(entities.error), calls;
    }
    r := Success(ParsedInput(row.value.id, parsed.code, entities.value));
  }

  /** `extractThingTalkCode`: classify, and compile database-backed intents. */
  method ExtractThingTalkCode(req: Request, db: Database, services: Services)
    returns (r: Result<Input, Error>, calls: seq<Call>)
    requires ServicesConform(services)
    ensures Classify(req).Failure? ==> r == Failure(Classify(req).error) && calls == []
    ensures Classify(req).Success? && Classify(req).value.RunProgram? ==>
      r == Success(ProgramInput(Classify(req).value.program)) && calls == []
    ensures Classify(req).Success? && Classify(req).value.RunCommand? ==>
      r == Success(TextInput(Classify(req).value.command)) && calls == []
    ensures Classify(req).Success? && Classify(req).value.FromDatabase? ==>
      Compiled(r, calls) == IntentFromDB(req.locale, req.intentName, req.slots, db, services)
  {
    calls := [];
    if req.requestType == "SessionEndedRequest" {
      return Success(ProgramInput(Nevermind)), [];
    } else if req.requestType == "LaunchRequest" {
      return Success(ProgramInput(Wakeup)), [];
    } else if req.requestType != "IntentRequest" {
      return Failure(InvalidRequestType(req.requestType)), [];
    }
    if req.intentName == "AMAZON.StopIntent" {
      r := Success(ProgramInput(Nevermind));
    } else if req.intentName == "org.thingpedia.command" {
      r := Success(TextInput(if "command" in req.slots then Some(req.slots["command"]) else None));
    } else {
      r, calls := GetIntentFromDB(req.locale, req.intentName, req.slots, db, services);
    }
  }
}
