/** The data the Alexa bridge exchanges with the voice platform and with its
    collaborators (tokenizer, location service, clock), and the typed values
    a slot resolves to. */
module Entities {
  import opened Results

  /** A calendar date and time of day as integer fields; `month` is 1-based. */
  datatype DateFields = DateFields(year: int, month: int, day: int, hour: int, minute: int, second: int)

  /** What the tokenizer reports for a date: an absolute date, or a partial form
      whose fields may be missing or negative (meaning "not given"). */
  datatype DateForm =
    | AbsoluteDate(date: DateFields)
    | PartialDate(year: Option<int>, month: Option<int>, day: Option<int>,
                  hour: Option<int>, minute: Option<int>, second: Option<int>)

  /** A value the tokenizer recognised in the text, filed under a tag such as `NUMBER_0`. */
  datatype Entity =
    | NumberEntity(number: real)
    | TimeEntity(hour: int, minute: int, second: Option<int>)
    | CurrencyEntity(amount: real, unit: string)
    | DateEntity(form: DateForm)
    | OtherEntity(text: string)

  /** The tokenizer's answer: the tokens, with each recognised value replaced by
      its tag, and the tagged values. */
  datatype Tokenized = Tokenized(tokens: seq<string>, entities: map<string, Entity>)

  const NumberTag := "NUMBER_0"
  const TimeTag := "TIME_0"
  const CurrencyTag := "CURRENCY_0"
  const DateTag := "DATE_0"

  /** The tokenizer's contract as the bridge relies on it: each tag it reads holds
      the kind of value its name says, and a `NUMBER_0` token stands for a
      recorded `NUMBER_0` entity. */
  predicate Conforms(t: Tokenized) {
    && (NumberTag in t.entities ==> t.entities[NumberTag].NumberEntity?)
    && (TimeTag in t.entities ==> t.entities[TimeTag].TimeEntity?)
    && (CurrencyTag in t.entities ==> t.entities[CurrencyTag].CurrencyEntity?)
    && (DateTag in t.entities ==> t.entities[DateTag].DateEntity?)
    && (NumberTag in t.tokens ==> NumberTag in t.entities)
  }

  /** One candidate place returned by the location service; a larger `rank`
      is a larger administrative area. */
  datatype Candidate = Candidate(latitude: real, longitude: real, display: string, rank: int)

  /** The declared type of an argument of a canonical example program. */
  datatype SlotType =
    | BooleanType
    | StringType
    | NumberType
    | MeasureType(unit: string)
    | EnumType(entries: seq<string>)
    | TimeType
    | CurrencyType
    | DateType
    | LocationType
    | OtherType(name: string)

  /** A resolved slot value. */
  datatype Value =
    | BooleanValue(b: bool)
    | StringValue(s: string)
    | NumberValue(n: real)
    | MeasureValue(amount: real, unit: string)
    | EnumValue(id: string)
    | TimeValue(hour: int, minute: int, second: int)
    | CurrencyValue(amount: real, code: string)
    | DateValue(date: DateFields)
    | LocationValue(latitude: real, longitude: real, display: string)

  /** One entry of an authority's entity-resolution list: the ids of its matched values. */
  datatype Resolution = Resolution(valueIds: seq<string>)

  /** A slot as the platform sends it. `resolutions` is the slot's
      `resolutionsPerAuthority` list, one resolution list per authority, and is
      `None` when the slot carries no `resolutions` object. */
  datatype AlexaSlot = AlexaSlot(value: string, resolutions: Option<seq<seq<Resolution>>>)

  /** A request the slot resolver makes to a network collaborator. */
  datatype Call = Tokenize(language: string, text: string) | ResolveLocation(language: string, text: string)

  /** Everything that makes a request fail. */
  datatype Error =
    | InvalidRequestType(requestType: string)
    | UnknownIntent(device: string, name: string)
    | MissingSlotType(slotName: string)
    | MalformedSlot(slotName: string)
    | UnsupportedSlotType(slotType: SlotType)

  /** The collaborators of the slot resolver: the tokenizer, the location
      service (both take a language and a text) and the current time. */
  datatype Services = Services(
    tokenize: (string, string) -> Tokenized,
    resolveLocation: (string, string) -> seq<Candidate>,
    now: DateFields)

  ghost predicate ServicesConform(services: Services) {
    forall language, text :: Conforms(services.tokenize(language, text))
  }
}
