/** Slot resolution of the Alexa bridge (`alexaSlotsToEntities` and
    `parseDate`): every argument of a canonical example program is looked up
    among the platform's slots by name and turned into a typed value, or into
    "unresolved" (`None`), under the key `SLOT_<i>` of its position. */
module Slots {
  import opened Results
  import opened Entities

  // ---------------------------------------------------------------------------
  // Dates

  /** A date field is given when it is present and not negative. */
  predicate Given(field: Option<int>) {
    field.Some? && field.value >= 0
  }

  function FieldOr(field: Option<int>, fallback: int): int {
    if Given(field) then field.value else fallback
  }

  /** `parseDate`, up to the construction of the JavaScript `Date`: an absolute
      date is kept; in a partial form the calendar fields default to `now`'s and
      the clock fields to 0. */
  function ParseDate(form: DateForm, now: DateFields): (r: DateFields)
    ensures form.AbsoluteDate? ==> r == form.date
    ensures form.PartialDate? ==> r.hour >= 0 && r.minute >= 0 && r.second >= 0
    ensures form.PartialDate? ==> (r.year == now.year || Given(form.year)) && (r.month == now.month || Given(form.month))
                                  && (r.day == now.day || Given(form.day))
  {
    match form
    case AbsoluteDate(date) => date
    case PartialDate(year, month, day, hour, minute, second) =>
      DateFields(FieldOr(year, now.year), FieldOr(month, now.month), FieldOr(day, now.day),
                 FieldOr(hour, 0), FieldOr(minute, 0), FieldOr(second, 0))
  }

  lemma ParseDateSpec(form: DateForm, now: DateFields)
    ensures form.AbsoluteDate? ==> ParseDate(form, now) == form.date
    ensures form.PartialDate? ==>
      var r := ParseDate(form, now);
      && (if Given(form.year) then r.year == form.year.value else r.year == now.year)
      && (if Given(form.month) then r.month == form.month.value else r.month == now.month)
      && (if Given(form.day) then r.day == form.day.value else r.day == now.day)
      && (if Given(form.hour) then r.hour == form.hour.value else r.hour == 0)
      && (if Given(form.minute) then r.minute == form.minute.value else r.minute == 0)
      && (if Given(form.second) then r.second == form.second.value else r.second == 0)
  {
  }

  /** A request that gives only the day: year and month come from `now`, the
      time of day is midnight. */
  lemma ParseDateOnlyDay(now: DateFields)
    ensures ParseDate(PartialDate(None, None, Some(15), None, None, None), now)
         == DateFields(now.year, now.month, 15, 0, 0, 0)
  {
  }

  // ---------------------------------------------------------------------------
  // Measure units

  /** Position `i` holds the first `NUMBER_0` token that has a token after it. */
  predicate FirstNumberAt(tokens: seq<string>, i: int) {
    0 <= i < |tokens| - 1 && tokens[i] == NumberTag &&
    forall j :: 0 <= j < i ==> tokens[j] != NumberTag
  }

  /** The unit of a measure: the token right after the first `NUMBER_0`. */
  function MeasureUnit(tokens: seq<string>): (unit: Option<string>)
    ensures unit.Some? ==> NumberTag in tokens && unit.value in tokens
    decreases |tokens|
  {
    if |tokens| < 2 then None
    else if tokens[0] == NumberTag then Some(tokens[1])
    else MeasureUnit(tokens[1..])
  }

  /** There is no unit iff no `NUMBER_0` is followed by a token (in particular
      when `NUMBER_0` is only the last token); otherwise the unit is the token
      after the first `NUMBER_0`. */
  lemma {:induction false} MeasureUnitSpec(tokens: seq<string>)
    ensures MeasureUnit(tokens).None? <==> forall i :: 0 <= i < |tokens| - 1 ==> tokens[i] != NumberTag
    ensures forall i :: FirstNumberAt(tokens, i) ==> MeasureUnit(tokens) == Some(tokens[i + 1])
    decreases |tokens|
  {
    if |tokens| >= 2 && tokens[0] != NumberTag {
      var rest := tokens[1..];
      MeasureUnitSpec(rest);
      forall i | FirstNumberAt(tokens, i) ensures FirstNumberAt(rest, i - 1) {
        forall j | 0 <= j < i - 1 ensures rest[j] != NumberTag { assert rest[j] == tokens[j + 1]; }
      }
      if forall i :: 0 <= i < |rest| - 1 ==> rest[i] != NumberTag {
        forall i | 0 <= i < |tokens| - 1 ensures tokens[i] != NumberTag {
          if i > 0 { assert tokens[i] == rest[i - 1]; }
        }
      } else {
        var i :| 0 <= i < |rest| - 1 && rest[i] == NumberTag;
        assert tokens[i + 1] == NumberTag;
      }
    }
  }

  /** The unit scan of the measure case, a loop that stops at the first `NUMBER_0`. */
  method FindUnit(tokens: seq<string>) returns (unit: Option<string>)
    ensures unit == MeasureUnit(tokens)
    ensures unit.None? <==> forall i :: 0 <= i < |tokens| - 1 ==> tokens[i] != NumberTag
    ensures forall i :: FirstNumberAt(tokens, i) ==> unit == Some(tokens[i + 1])
  {
    MeasureUnitSpec(tokens);
    unit := None;
    var i := 0;
    while i < |tokens| - 1
      invariant 0 <= i && (i <= |tokens| - 1 || i == 0)
      invariant MeasureUnit(tokens[i..]) == MeasureUnit(tokens)
    {
      if tokens[i] == NumberTag {
        unit := Some(tokens[i + 1]);
        break;
      }
      assert tokens[i..][1..] == tokens[i + 1..];
      i := i + 1;
    }
  }

  // ---------------------------------------------------------------------------
  // Locations

  /** Candidates larger than a city (rank above 16) are ignored. */
  const MaxRank := 16

  /** The candidates of rank at most 16, in their original order. */
  function CityLevel(cands: seq<Candidate>): (kept: seq<Candidate>)
    ensures |kept| <= |cands|
    ensures forall i :: 0 <= i < |kept| ==> kept[i].rank <= MaxRank && kept[i] in cands
    decreases |cands|
  {
    if |cands| == 0 then []
    else (if cands[0].rank <= MaxRank then [cands[0]] else []) + CityLevel(cands[1..])
  }

  /** The filter keeps exactly the small enough candidates. */
  lemma {:induction false} CityLevelMembers(cands: seq<Candidate>)
    ensures forall c :: c in CityLevel(cands) <==> c in cands && c.rank <= MaxRank
    ensures |CityLevel(cands)| <= |cands|
    decreases |cands|
  {
    if |cands| > 0 {
      CityLevelMembers(cands[1..]);
      assert cands == [cands[0]] + cands[1..];
    }
  }

  /** The filter keeps the original order: it distributes over concatenation. */
  lemma {:induction false} CityLevelAppend(a: seq<Candidate>, b: seq<Candidate>)
    ensures CityLevel(a + b) == CityLevel(a) + CityLevel(b)
    decreases |a|
  {
    if |a| > 0 {
      CityLevelAppend(a[1..], b);
      assert (a + b)[0] == a[0] && (a + b)[1..] == a[1..] + b;
    } else {
      assert a + b == b;
    }
  }

  /** Position `i` holds the first candidate of rank at most 16. */
  predicate FirstCityAt(cands: seq<Candidate>, i: int) {
    0 <= i < |cands| && cands[i].rank <= MaxRank &&
    forall j :: 0 <= j < i ==> cands[j].rank > MaxRank
  }

  /** The location slot's value: unresolved when no candidate is small enough,
      otherwise built from the first one that is, with its latitude given as
      both coordinates. */
  function LocationOf(cands: seq<Candidate>): (r: Option<Value>)
    ensures r.Some? ==> exists c :: c in cands && c.rank <= MaxRank && r.value == LocationValue(c.latitude, c.latitude, c.display)
  {
    var kept := CityLevel(cands);
    if |kept| > 0 then Some(LocationValue(kept[0].latitude, kept[0].latitude, kept[0].display))
    else None
  }

  lemma {:induction false} LocationOfSpec(cands: seq<Candidate>)
    ensures LocationOf(cands).None? <==> forall i :: 0 <= i < |cands| ==> cands[i].rank > MaxRank
    ensures forall i :: FirstCityAt(cands, i) ==>
      LocationOf(cands) == Some(LocationValue(cands[i].latitude, cands[i].latitude, cands[i].display))
    decreases |cands|
  {
    if |cands| > 0 && cands[0].rank > MaxRank {
      var rest := cands[1..];
      LocationOfSpec(rest);
      assert CityLevel(cands) == CityLevel(rest);
      forall i | FirstCityAt(cands, i) ensures FirstCityAt(rest, i - 1) {
        forall j | 0 <= j < i - 1 ensures rest[j].rank > MaxRank { assert rest[j] == cands[j + 1]; }
      }
      if forall i :: 0 <= i < |rest| ==> rest[i].rank > MaxRank {
        forall i | 0 <= i < |cands| ensures cands[i].rank > MaxRank {
          if i > 0 { assert cands[i] == rest[i - 1]; }
        }
      } else {
        var i :| 0 <= i < |rest| && rest[i].rank <= MaxRank;
        assert cands[i + 1].rank <= MaxRank;
      }
    }
  }

  /** A rank-20 candidate before a rank-10 one: the rank-10 one is taken. */
  lemma LocationSkipsLargeAreas(large: Candidate, city: Candidate)
    requires large.rank == 20 && city.rank == 10
    ensures LocationOf([large, city]) == Some(LocationValue(city.latitude, city.latitude, city.display))
    ensures LocationOf([large, large]) == None
  {
    assert CityLevel([city]) == [city] by {
      assert [city][1..] == [];
    }
    assert CityLevel([large, city]) == [city] by {
      assert [large, city][1..] == [city];
    }
    assert CityLevel([large]) == [] by {
      assert [large][1..] == [];
    }
    assert CityLevel([large, large]) == [] by {
      assert [large, large][1..] == [large];
    }
  }

  // ---------------------------------------------------------------------------
  // One slot

  /** The id of the first value of the first resolution of the first authority;
      `None` when that authority or its resolution list is missing or empty.
      A slot without a `resolutions` object, or a first resolution without
      values, makes the source read a property of `undefined`. */
  function FirstResolutionId(slotName: string, slot: AlexaSlot): (r: Result<Option<string>, Error>)
    ensures r.Failure? ==> r.error == MalformedSlot(slotName)
    ensures r.Failure? <==> (slot.resolutions.None? ||
      (|slot.resolutions.value| > 0 && |slot.resolutions.value[0]| > 0 && |slot.resolutions.value[0][0].valueIds| == 0))
    ensures r.Success? && r.value.Some? ==>
      slot.resolutions.Some? && |slot.resolutions.value| > 0 && |slot.resolutions.value[0]| > 0
      && |slot.resolutions.value[0][0].valueIds| > 0 && r.value.value == slot.resolutions.value[0][0].valueIds[0]
  {
    match slot.resolutions
    case None => Failure(MalformedSlot(slotName))
    case Some(perAuthority) =>
      if |perAuthority| == 0 || |perAuthority[0]| == 0 then Success(None)
      else if |perAuthority[0][0].valueIds| == 0 then Failure(MalformedSlot(slotName))
      else Success(Some(perAuthority[0][0].valueIds[0]))
  }

  /** The errors resolving a slot can raise. */
  predicate SlotError(e: Error) {
    e.MissingSlotType? || e.MalformedSlot? || e.UnsupportedSlotType?
  }

  /** A resolved value is of the kind its declared type names. */
  predicate OfType(v: Value, t: SlotType) {
    match t
    case BooleanType => v.BooleanValue?
    case StringType => v.StringValue?
    case NumberType => v.NumberValue?
    case MeasureType(_) => v.MeasureValue?
    case EnumType(_) => v.EnumValue?
    case TimeType => v.TimeValue?
    case CurrencyType => v.CurrencyValue?
    case DateType => v.DateValue?
    case LocationType => v.LocationValue?
    case OtherType(_) => false
  }

  /** The outcome of one slot: its value (or the error it raises) and the
      collaborator calls made for it. */
  datatype SlotOutcome = SlotOutcome(result: Result<Option<Value>, Error>, calls: seq<Call>)

  /** A slot present in the request, resolved by its declared type: a value of
      that type, unresolved, or an error, after at most one collaborator call
      on the slot's text. Only the network-backed types make a call. */
  function ResolvePresent(language: string, slotName: string, t: SlotType, slot: AlexaSlot, services: Services): (o: SlotOutcome)
    requires ServicesConform(services)
    ensures o.result.Success? && o.result.value.Some? ==> OfType(o.result.value.value, t)
    ensures o.result.Failure? ==>
      ((t.OtherType? && o.result.error == UnsupportedSlotType(t))
       || ((t.BooleanType? || t.EnumType?) && o.result.error == MalformedSlot(slotName)))
    ensures o.calls == [] <==> t.BooleanType? || t.StringType? || t.EnumType? || t.OtherType?
    ensures o.calls != [] ==> o.calls == [if t.LocationType? then ResolveLocation(language, slot.value) else Tokenize(language, slot.value)]
  {
    match t
    case BooleanType =>
      var id := FirstResolutionId(slotName, slot);
      var result := if id.Failure? then Failure(id.error)
                    else if id.value.None? then Success(None)
                    else Success(Some(BooleanValue(id.value.value == "true")));
      SlotOutcome(result, [])
    case StringType =>
      SlotOutcome(Success(Some(StringValue(slot.value))), [])
    case NumberType =>
      var tokenized := services.tokenize(language, slot.value);
      var value := if NumberTag !in tokenized.entities then None
                   else Some(NumberValue(tokenized.entities[NumberTag].number));
      SlotOutcome(Success(value), [Tokenize(language, slot.value)])
    case MeasureType(_) =>
      var tokenized := services.tokenize(language, slot.value);
      var unit := MeasureUnit(tokenized.tokens);
      var value := if unit.None? then None
                   else Some(MeasureValue(tokenized.entities[NumberTag].number, unit.value));
      SlotOutcome(Success(value), [Tokenize(language, slot.value)])
    case EnumType(_) =>
      var id := FirstResolutionId(slotName, slot);
      var result := if id.Failure? then Failure(id.error)
                    else if id.value.None? then Success(None)
                    else Success(Some(EnumValue(id.value.value)));
      SlotOutcome(result, [])
    case TimeType =>
      var tokenized := services.tokenize(language, slot.value);
      var value := if TimeTag !in tokenized.entities then None
                   else
                     var time := tokenized.entities[TimeTag];
                     Some(TimeValue(time.hour, time.minute, if time.second.Some? then time.second.value else 0));
      SlotOutcome(Success(value), [Tokenize(language, slot.value)])
    case CurrencyType =>
      var tokenized := services.tokenize(language, slot.value);
      var value := if CurrencyTag !in tokenized.entities then None
                   else
                     var currency := tokenized.entities[CurrencyTag];
                     Some(CurrencyValue(currency.amount, currency.unit));
      SlotOutcome(Success(value), [Tokenize(language, slot.value)])
    case DateType =>
      var tokenized := services.tokenize(language, slot.value);
      var value := if DateTag !in tokenized.entities then None
                   else Some(DateValue(ParseDate(tokenized.entities[DateTag].form, services.now)));
      SlotOutcome(Success(value), [Tokenize(language, slot.value)])
    case LocationType =>
      var cands := services.resolveLocation(language, slot.value);
      SlotOutcome(Success(LocationOf(cands)), [ResolveLocation(language, slot.value)])
    case OtherType(_) =>
      SlotOutcome(Failure(UnsupportedSlotType(t)), [])
  }

  /** One iteration of the slot loop. An absent slot is unresolved whatever its
      type; a present slot whose type is not declared makes the source read a
      property of `undefined`. */
  function ResolveSlot(language: string, slotName: string, slotTypes: map<string, SlotType>,
                       alexaSlots: map<string, AlexaSlot>, services: Services): (o: SlotOutcome)
    requires ServicesConform(services)
    ensures |o.calls| <= 1
    ensures o.result.Failure? ==> SlotError(o.result.error) && slotName in alexaSlots
    ensures o.result.Success? && o.result.value.Some? ==>
      slotName in alexaSlots && slotName in slotTypes && OfType(o.result.value.value, slotTypes[slotName])
  {
    if slotName !in alexaSlots then SlotOutcome(Success(None), [])
    else if slotName !in slotTypes then SlotOutcome(Failure(MissingSlotType(slotName)), [])
    else ResolvePresent(language, slotName, slotTypes[slotName], alexaSlots[slotName], services)
  }

  /** A slot absent from the request is unresolved and costs no collaborator call. */
  lemma AbsentSlotUnresolved(language: string, slotName: string, slotTypes: map<string, SlotType>,
                             alexaSlots: map<string, AlexaSlot>, services: Services)
    requires ServicesConform(services)
    requires slotName !in alexaSlots
    ensures ResolveSlot(language, slotName, slotTypes, alexaSlots, services) == SlotOutcome(Success(None), [])
  {
  }

  /** Booleans and enums read the first value id of the first authority's first
      resolution: unresolved when that authority or its list is missing or empty,
      otherwise `id == "true"` or the id itself; they call no collaborator. */
  lemma AuthorityResolution(language: string, slotName: string, t: SlotType, slot: AlexaSlot, services: Services)
    requires ServicesConform(services)
    requires t.BooleanType? || t.EnumType?
    requires slot.resolutions.Some?
    ensures var o := ResolvePresent(language, slotName, t, slot, services);
      var per := slot.resolutions.value;
      && o.calls == []
      && ((|per| == 0 || |per[0]| == 0) ==> o.result == Success(None))
      && (|per| > 0 && |per[0]| > 0 && |per[0][0].valueIds| > 0 ==>
            var id := per[0][0].valueIds[0];
            o.result == Success(Some(if t.BooleanType? then BooleanValue(id == "true") else EnumValue(id))))
  {
  }

  /** Number, time, currency and date slots tokenize the slot's text once and are
      unresolved exactly when the tokenizer found no entity of their kind;
      otherwise they carry that entity's value (a date through `ParseDate`,
      a time with a missing second as 0). */
  lemma TokenizedResolution(language: string, slotName: string, t: SlotType, slot: AlexaSlot, services: Services)
    requires ServicesConform(services)
    requires t.NumberType? || t.TimeType? || t.CurrencyType? || t.DateType?
    ensures var o := ResolvePresent(language, slotName, t, slot, services);
      var tag := if t.NumberType? then NumberTag else if t.TimeType? then TimeTag
                 else if t.CurrencyType? then CurrencyTag else DateTag;
      && o.calls == [Tokenize(language, slot.value)]
      && o.result.Success?
      && (o.result.value.None? <==> tag !in services.tokenize(language, slot.value).entities)
    ensures var e := services.tokenize(language, slot.value).entities;
      var o := ResolvePresent(language, slotName, t, slot, services);
      && (t.NumberType? && NumberTag in e ==> o.result == Success(Some(NumberValue(e[NumberTag].number))))
      && (t.CurrencyType? && CurrencyTag in e ==>
            o.result == Success(Some(CurrencyValue(e[CurrencyTag].amount, e[CurrencyTag].unit))))
      && (t.DateType? && DateTag in e ==> o.result == Success(Some(DateValue(ParseDate(e[DateTag].form, services.now)))))
      && (t.TimeType? && TimeTag in e ==>
            var time := e[TimeTag];
            o.result == Success(Some(TimeValue(time.hour, time.minute, if time.second.Some? then time.second.value else 0))))
  {
  }

  /** A time without seconds gets second 0. */
  lemma TimeSecondDefaultsToZero(language: string, slotName: string, slot: AlexaSlot, services: Services)
    requires ServicesConform(services)
    requires TimeTag in services.tokenize(language, slot.value).entities
    requires services.tokenize(language, slot.value).entities[TimeTag].second.None?
    ensures var time := services.tokenize(language, slot.value).entities[TimeTag];
      ResolvePresent(language, slotName, TimeType, slot, services).result == Success(Some(TimeValue(time.hour, time.minute, 0)))
  {
  }

  /** A measure pairs the number with the token after the first `NUMBER_0`. */
  lemma MeasureResolution(language: string, slotName: string, unit: string, slot: AlexaSlot, services: Services, i: int)
    requires ServicesConform(services)
    requires FirstNumberAt(services.tokenize(language, slot.value).tokens, i)
    ensures var tokenized := services.tokenize(language, slot.value);
      ResolvePresent(language, slotName, MeasureType(unit), slot, services).result
        == Success(Some(MeasureValue(tokenized.entities[NumberTag].number, tokenized.tokens[i + 1])))
  {
    MeasureUnitSpec(services.tokenize(language, slot.value).tokens);
  }

  /** A string slot is its text verbatim, with no call; a location slot asks the
      location service once about the text and takes `LocationOf` its
      candidates; a measure slot is unresolved exactly when no `NUMBER_0` token
      has a token after it. */
  lemma StringLocationMeasureResolution(language: string, slotName: string, unit: string, slot: AlexaSlot, services: Services)
    requires ServicesConform(services)
    ensures ResolvePresent(language, slotName, StringType, slot, services)
         == SlotOutcome(Success(Some(StringValue(slot.value))), [])
    ensures ResolvePresent(language, slotName, LocationType, slot, services)
         == SlotOutcome(Success(LocationOf(services.resolveLocation(language, slot.value))), [ResolveLocation(language, slot.value)])
    ensures var o := ResolvePresent(language, slotName, MeasureType(unit), slot, services);
      var tokens := services.tokenize(language, slot.value).tokens;
      && o.calls == [Tokenize(language, slot.value)]
      && (o.result == Success(None) <==> forall i :: 0 <= i < |tokens| - 1 ==> tokens[i] != NumberTag)
  {
    MeasureUnitSpec(services.tokenize(language, slot.value).tokens);
  }

  /** "set timer for 5 minutes", tokenized with the number as `NUMBER_0`,
      resolves to 5 minutes. */
  lemma MeasureExample(language: string, slotName: string, unit: string, slot: AlexaSlot, services: Services)
    requires ServicesConform(services)
    requires services.tokenize(language, slot.value)
          == Tokenized(["set", "timer", "for", NumberTag, "minutes"], map[NumberTag := NumberEntity(5.0)])
    ensures ResolvePresent(language, slotName, MeasureType(unit), slot, services).result
         == Success(Some(MeasureValue(5.0, "minutes")))
  {
    MeasureResolution(language, slotName, unit, slot, services, 3);
  }

  /** A slot of a type the bridge does not know raises an error before any call. */
  lemma UnsupportedTypeFails(language: string, slotName: string, name: string, slot: AlexaSlot, services: Services)
    requires ServicesConform(services)
    ensures ResolvePresent(language, slotName, OtherType(name), slot, services)
         == SlotOutcome(Failure(UnsupportedSlotType(OtherType(name))), [])
  {
  }

  /** One iteration of the slot loop, with the unit scan as a loop of its own. */
  method ResolveOne(language: string, slotName: string, slotTypes: map<string, SlotType>,
                    alexaSlots: map<string, AlexaSlot>, services: Services) returns (o: SlotOutcome)
    requires ServicesConform(services)
    ensures o == ResolveSlot(language, slotName, slotTypes, alexaSlots, services)
  {
    if slotName !in alexaSlots {
      return SlotOutcome(Success(None), []);
    }
    if slotName !in slotTypes {
      return SlotOutcome(Failure(MissingSlotType(slotName)), []);
    }
    var t, slot := slotTypes[slotName], alexaSlots[slotName];
    if t.MeasureType? {
      var tokenized := services.tokenize(language, slot.value);
      var unit := FindUnit(tokenized.tokens);
      if unit.None? {
        o := SlotOutcome(Success(None), [Tokenize(language, slot.value)]);
      } else {
        o := SlotOutcome(Success(Some(MeasureValue(tokenized.entities[NumberTag].number, unit.value))),
                         [Tokenize(language, slot.value)]);
      }
    } else {
      o := ResolvePresent(language, slotName, t, slot, services);
    }
  }

  // ---------------------------------------------------------------------------
  // Keys and the slot loop

  function DigitChar(d: nat): char
    requires d < 10
  {
    ('0' as int + d) as char
  }

  /** The decimal notation of a natural number. */
  function NatToString(n: nat): (s: string)
    ensures |s| >= 1
    decreases n
  {
    if n < 10 then [DigitChar(n)] else NatToString(n / 10) + [DigitChar(n % 10)]
  }

  /** Different numbers have different decimal notations. */
  lemma {:induction false} NatToStringInjective(a: nat, b: nat)
    requires NatToString(a) == NatToString(b)
    ensures a == b
    decreases a
  {
    var s := NatToString(a);
    if a >= 10 && b >= 10 {
      assert NatToString(a / 10) == s[..|s| - 1] == NatToString(b / 10);
      NatToStringInjective(a / 10, b / 10);
      assert DigitChar(a % 10) == s[|s| - 1] == DigitChar(b % 10);
    } else if a < 10 && b < 10 {
      assert DigitChar(a) == s[0] == DigitChar(b);
    }
  }

  /** The key the entity of the `i`-th argument is filed under. */
  function SlotKey(i: nat): string {
    "SLOT_" + NatToString(i)
  }

  lemma SlotKeyInjective(i: nat, j: nat)
    requires SlotKey(i) == SlotKey(j)
    ensures i == j
  {
    assert NatToString(i) == SlotKey(i)[5..] == SlotKey(j)[5..] == NatToString(j);
    NatToStringInjective(i, j);
  }

  ghost function SlotKeys(n: nat): set<string> {
    set i: nat | i < n :: SlotKey(i)
  }

  /** The entity map (or the error raised) and the collaborator calls made. */
  datatype FillOutcome = FillOutcome(result: Result<map<string, Option<Value>>, Error>, calls: seq<Call>)

  /** The state of the slot loop after its first `n` iterations. */
  function EntitiesUpTo(language: string, slotNames: seq<string>, slotTypes: map<string, SlotType>,
                        alexaSlots: map<string, AlexaSlot>, services: Services, n: nat): (r: FillOutcome)
    requires n <= |slotNames| && ServicesConform(services)
    ensures |r.calls| <= n
    ensures r.result.Failure? ==> SlotError(r.result.error)
    ensures forall c :: c in r.calls ==> c.language == language
    decreases n
  {
    if n == 0 then FillOutcome(Success(map[]), [])
    else
      var prev := EntitiesUpTo(language, slotNames, slotTypes, alexaSlots, services, n - 1);
      if prev.result.Failure? then prev
      else
        var o := ResolveSlot(language, slotNames[n - 1], slotTypes, alexaSlots, services);
        var result := if o.result.Failure? then Failure(o.result.error)
                      else Success(prev.result.value[SlotKey(n - 1) := o.result.value]);
        FillOutcome(result, prev.calls + o.calls)
  }

  /** After `n` iterations the loop has succeeded iff each of the first `n`
      slots resolves. */
  lemma {:induction false} EntitiesUpToSucceeds(language: string, slotNames: seq<string>, slotTypes: map<string, SlotType>,
                                                alexaSlots: map<string, AlexaSlot>, services: Services, n: nat)
    requires n <= |slotNames| && ServicesConform(services)
    ensures EntitiesUpTo(language, slotNames, slotTypes, alexaSlots, services, n).result.Success?
        <==> forall i :: 0 <= i < n ==> ResolveSlot(language, slotNames[i], slotTypes, alexaSlots, services).result.Success?
    decreases n
  {
    if n > 0 {
      EntitiesUpToSucceeds(language, slotNames, slotTypes, alexaSlots, services, n - 1);
    }
  }

  /** A successful loop has filled exactly the keys `SLOT_0 .. SLOT_<n-1>`,
      `SLOT_i` holding the value of the `i`-th slot. */
  lemma {:induction false} EntitiesUpToKeys(language: string, slotNames: seq<string>, slotTypes: map<string, SlotType>,
                                            alexaSlots: map<string, AlexaSlot>, services: Services, n: nat)
    requires n <= |slotNames| && ServicesConform(services)
    requires EntitiesUpTo(language, slotNames, slotTypes, alexaSlots, services, n).result.Success?
    ensures var m := EntitiesUpTo(language, slotNames, slotTypes, alexaSlots, services, n).result.value;
      && m.Keys == SlotKeys(n)
      && forall i :: 0 <= i < n ==>
           ResolveSlot(language, slotNames[i], slotTypes, alexaSlots, services).result == Success(m[SlotKey(i)])
    decreases n
  {
    if n > 0 {
      var prev := EntitiesUpTo(language, slotNames, slotTypes, alexaSlots, services, n - 1);
      var o := ResolveSlot(language, slotNames[n - 1], slotTypes, alexaSlots, services);
      assert prev.result.Success? && o.result.Success?;
      EntitiesUpToKeys(language, slotNames, slotTypes, alexaSlots, services, n - 1);
      var m := prev.result.value[SlotKey(n - 1) := o.result.value];
      assert SlotKeys(n) == SlotKeys(n - 1) + {SlotKey(n - 1)};
      forall i | 0 <= i < n - 1 ensures m[SlotKey(i)] == prev.result.value[SlotKey(i)] {
        if SlotKey(i) == SlotKey(n - 1) {
          SlotKeyInjective(i, n - 1);
        }
      }
    }
  }

  /** A failed loop raised the error of the first slot that fails. */
  lemma {:induction false} EntitiesUpToFailure(language: string, slotNames: seq<string>, slotTypes: map<string, SlotType>,
                                               alexaSlots: map<string, AlexaSlot>, services: Services, n: nat)
    requires n <= |slotNames| && ServicesConform(services)
    requires EntitiesUpTo(language, slotNames, slotTypes, alexaSlots, services, n).result.Failure?
    ensures exists k :: (0 <= k < n &&
      ResolveSlot(language, slotNames[k], slotTypes, alexaSlots, services).result
        == Failure(EntitiesUpTo(language, slotNames, slotTypes, alexaSlots, services, n).result.error) &&
      (forall i :: 0 <= i < k ==> ResolveSlot(language, slotNames[i], slotTypes, alexaSlots, services).result.Success?))
    decreases n
  {
    var prev := EntitiesUpTo(language, slotNames, slotTypes, alexaSlots, services, n - 1);
    if prev.result.Failure? {
      EntitiesUpToFailure(language, slotNames, slotTypes, alexaSlots, services, n - 1);
    } else {
      EntitiesUpToSucceeds(language, slotNames, slotTypes, alexaSlots, services, n - 1);
      assert 0 <= n - 1 < n;
    }
  }

  /** `alexaSlotsToEntities`: the loop over the argument names. */
  method AlexaSlotsToEntities(language: string, slotNames: seq<string>, slotTypes: map<string, SlotType>,
                              alexaSlots: map<string, AlexaSlot>, services: Services)
    returns (r: Result<map<string, Option<Value>>, Error>, calls: seq<Call>)
    requires ServicesConform(services)
    ensures FillOutcome(r, calls) == EntitiesUpTo(language, slotNames, slotTypes, alexaSlots, services, |slotNames|)
    ensures r.Success? <==> forall i :: 0 <= i < |slotNames| ==> ResolveSlot(language, slotNames[i], slotTypes, alexaSlots, services).result.Success?
    ensures r.Success? ==> r.value.Keys == SlotKeys(|slotNames|)
    ensures r.Success? ==> forall i :: 0 <= i < |slotNames| ==>
      ResolveSlot(language, slotNames[i], slotTypes, alexaSlots, services).result == Success(r.value[SlotKey(i)])
    ensures r.Failure? ==> exists k :: (0 <= k < |slotNames| &&
      ResolveSlot(language, slotNames[k], slotTypes, alexaSlots, services).result == Failure(r.error) &&
      (forall i :: 0 <= i < k ==> ResolveSlot(language, slotNames[i], slotTypes, alexaSlots, services).result.Success?))
  {
    var entities: map<string, Option<Value>> := map[];
    calls := [];
    var slotId := 0;
    while slotId < |slotNames|
      invariant 0 <= slotId <= |slotNames|
      invariant EntitiesUpTo(language, slotNames, slotTypes, alexaSlots, services, slotId) == FillOutcome(Success(entities), calls)
    {
      var outcome := ResolveOne(language, slotNames[slotId], slotTypes, alexaSlots, services);
      calls := calls + outcome.calls;
      if outcome.result.Failure? {
        r := Failure(outcome.result.error);
        assert FillOutcome(r, calls) == EntitiesUpTo(language, slotNames, slotTypes, alexaSlots, services, slotId + 1);
        EntitiesUpToTail(language, slotNames, slotTypes, alexaSlots, services, slotId + 1, |slotNames|);
        EntitiesUpToSucceeds(language, slotNames, slotTypes, alexaSlots, services, |slotNames|);
        EntitiesUpToFailure(language, slotNames, slotTypes, alexaSlots, services, |slotNames|);
        return;
      }
      entities := entities[SlotKey(slotId) := outcome.result.value];
      slotId := slotId + 1;
    }
    r := Success(entities);
    EntitiesUpToSucceeds(language, slotNames, slotTypes, alexaSlots, services, |slotNames|);
    EntitiesUpToKeys(language, slotNames, slotTypes, alexaSlots, services, |slotNames|);
  }

  /** Once an iteration has raised, later iterations change nothing. */
  lemma {:induction false} EntitiesUpToTail(language: string, slotNames: seq<string>, slotTypes: map<string, SlotType>,
                                            alexaSlots: map<string, AlexaSlot>, services: Services, k: nat, n: nat)
    requires k <= n <= |slotNames| && ServicesConform(services)
    requires EntitiesUpTo(language, slotNames, slotTypes, alexaSlots, services, k).result.Failure?
    ensures EntitiesUpTo(language, slotNames, slotTypes, alexaSlots, services, n)
         == EntitiesUpTo(language, slotNames, slotTypes, alexaSlots, services, k)
    decreases n - k
  {
    if k < n {
      EntitiesUpToTail(language, slotNames, slotTypes, alexaSlots, services, k, n - 1);
    }
  }
}
