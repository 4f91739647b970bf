# Alexa bridge of the Almond cloud: a Dafny model

This project models the core of the Alexa webhook bridge of Almond cloud (`routes/bridges/alexa/index.js`). The bridge turns an Alexa intent request into a command for the assistant engine. It then collects what the engine says during the turn and sends it back as one Alexa response. The model has three parts.

- **The turn delegate** (`delegate.dfy`, module `Delegate`). `AlexaDelegate` is a class with the source's fields `buffer`, `card`, `askSpecial` and `done`. A small `ResponseSink` class stands in for the Express response object; its `sent` field records what `res.json` was given.
  - Every `send*` method and `Flush` states its whole new state.
  - Each one is also proved to take exactly one `Step` of a value-level model (`Turn`, `Event`, `Run`, `Responses`).
  - Properties of whole streams of calls are proved on that model: at most one response, the response is the state at the first flush, the buffer is the concatenation of the lines, which calls change the card and the ask-special marker.
- **Slot resolution** (`slots.dfy`, module `Slots`). This covers `alexaSlotsToEntities` and `parseDate`.
  - The slot loop is a method. Its loop invariant ties the filled map and the collaborator calls to `EntitiesUpTo`, the state after the first `n` iterations.
  - Lemmas about `EntitiesUpTo` prove three facts: the result has exactly the keys `SLOT_0 .. SLOT_<n-1>`, each key holds the value of its slot, and a failure carries the error of the first failing slot.
  - The measure-unit scan (a loop with `break`) is a method proved against a recursive specification.
  - The per-type rules, the location filter and `parseDate` are functions with lemmas.
- **Classification and the database path** (`intents.dfy`, module `Intents`). `Classify` is the dispatch of `extractThingTalkCode`, and `ExtractThingTalkCode` is the full method. The database path splits the intent name at its last dot, using JavaScript's `lastIndexOf` and `substring` semantics, looks the example up, and runs the slot loop.

The collaborators are parameters, given as function-valued fields of `Services` and `Database`: the tokenizer, the location service, the clock ("now"), the example store, ThingTalk's dataset parser and serializer, and the locale-to-language map. The slot loop returns a log of the collaborator calls it makes (`Call`), so "no call for an absent slot" is a stated property.

The model keeps these behaviours of the code as written:
- The location value carries the candidate's latitude as both coordinates (line 226).
- A missing or negative hour, minute or second in a date defaults to 0, not to the current time (lines 125-133).
- The `send*` methods do not check `_done`. After a flush the buffer still changes, but nothing is emitted again (lines 59-94).
- The slot resolver, and so the tokenizer and the location service, is given the request's locale rather than its language (line 254).
- The raw-command intent passes the whole `command` slot object on as `text`, not its `value` (line 279).
- An absent slot is unresolved even when its type is unsupported or undeclared, because the absence test comes before the type dispatch (lines 150-153).
- The location is the first kept candidate in the location service's order; the candidates are not re-ranked (lines 221-226).

## Model

| member | source | states |
|---|---|---|
| `Delegate.AlexaDelegate.constructor` | routes/bridges/alexa/index.js:30-38 | a new delegate has an empty buffer, no card, no ask-special marker, is not done and has emitted nothing |
| `Delegate.AlexaDelegate.Flush` | routes/bridges/alexa/index.js:40-57 | when not done, emits exactly one response (version 1.0, plain-text speech equal to the buffer, the card, `shouldEndSession` iff no ask-special marker) and becomes done; when done, changes nothing; the at-most-once invariant `Valid` is kept |
| `Delegate.AlexaDelegate.Send` | routes/bridges/alexa/index.js:59-61 | appends the text and a newline to the buffer; card, marker and done are unchanged |
| `Delegate.AlexaDelegate.SendPicture` | routes/bridges/alexa/index.js:63-65 | changes nothing |
| `Delegate.AlexaDelegate.SendRdl` | routes/bridges/alexa/index.js:67-69 | appends the card's display title and a newline; nothing else changes |
| `Delegate.AlexaDelegate.SendChoice` | routes/bridges/alexa/index.js:71-73 | appends the choice title and a newline; nothing else changes |
| `Delegate.AlexaDelegate.SendButton` | routes/bridges/alexa/index.js:75-77 | changes nothing |
| `Delegate.AlexaDelegate.SendLink` | routes/bridges/alexa/index.js:79-86 | sets the card to the account-linking card iff the URL is `/user/register`, otherwise leaves it; buffer and marker unchanged |
| `Delegate.AlexaDelegate.SendResult` | routes/bridges/alexa/index.js:88-90 | appends the message formatted for the delegate's locale and a newline; nothing else changes |
| `Delegate.AlexaDelegate.SendAskSpecial` | routes/bridges/alexa/index.js:92-94 | overwrites the ask-special marker; nothing else changes |
| `Delegate.ResponseSink.Json` | routes/bridges/alexa/index.js:44-56 | `res.json` records exactly the one response it is given |
| `Delegate.Render` | routes/bridges/alexa/index.js:44-56 | the response has version 1.0, plain-text speech equal to the buffer and the current card, and ends the session iff there is no ask-special marker |
| `Delegate.Step` | routes/bridges/alexa/index.js:40-94 | one call appends exactly its line (`Line`) to the buffer, sets the card only on a link to `/user/register`, sets the marker only on `sendAskSpecial`, and makes the delegate done iff it was or the call is a flush |
| `Delegate.Emit` | routes/bridges/alexa/index.js:40-57 | one call emits at most one response, and one exactly when it is a flush of a delegate not yet done; that response speaks the buffer and carries the card |
| `Delegate.SilentOnceDone` | routes/bridges/alexa/index.js:41-43 | a delegate that is done stays done and emits nothing, whatever calls follow |
| `Delegate.AtMostOneResponse` | routes/bridges/alexa/index.js:40-57 | any stream of calls emits one response if the delegate was not done and the stream contains a flush, and none otherwise; the delegate ends done iff it was or the stream flushes |
| `Delegate.ResponseAtFirstFlush` | routes/bridges/alexa/index.js:44-56 | the one response is rendered from the state reached just before the first flush |
| `Delegate.BufferIsLines` | routes/bridges/alexa/index.js:59-90 | the buffer is the initial buffer followed by the line of every text, card, choice and result call in order, flushed or not |
| `Delegate.CardOnlyFromRegisterLink` | routes/bridges/alexa/index.js:79-86 | the card ends as the account-linking card if some call links to `/user/register`, and is untouched if none does |
| `Delegate.SticksToCard` | routes/bridges/alexa/index.js:79-86 | once set, the account-linking card is never removed |
| `Delegate.AskSpecialIsLast` | routes/bridges/alexa/index.js:92-94 | the marker is the one given by the last `sendAskSpecial`, or the initial one when there is none |
| `Slots.ParseDate` | routes/bridges/alexa/index.js:111-133 | an absolute date is returned unchanged; from a partial form the hour, minute and second are never negative, and the year, month and day are the given ones or the current ones |
| `Slots.ParseDateSpec` | routes/bridges/alexa/index.js:111-135 | an absolute date is returned unchanged; a given (present, non-negative) field is kept; a missing or negative year, month or day takes the current one, a missing or negative hour, minute or second becomes 0 |
| `Slots.ParseDateOnlyDay` | routes/bridges/alexa/index.js:115-133 | a date giving only day 15 is the current year and month, day 15, at 00:00:00 |
| `Slots.MeasureUnit` | routes/bridges/alexa/index.js:178-183 | a unit is found only when a `NUMBER_0` token occurs, and it is one of the tokens |
| `Slots.MeasureUnitSpec` | routes/bridges/alexa/index.js:176-187 | no unit iff no `NUMBER_0` has a token after it (so a trailing `NUMBER_0` gives none); otherwise the unit is the token after the first `NUMBER_0` |
| `Slots.FindUnit` | routes/bridges/alexa/index.js:177-183 | the scanning loop with `break` returns the token after the first `NUMBER_0` that has one, and nothing iff there is none |
| `Slots.CityLevel` | routes/bridges/alexa/index.js:221-223 | the kept candidates are no more than the given ones, each of them one of the given candidates and of rank at most 16 |
| `Slots.CityLevelMembers` | routes/bridges/alexa/index.js:221-223 | the filter keeps exactly the candidates of rank at most 16 |
| `Slots.CityLevelAppend` | routes/bridges/alexa/index.js:221-223 | the filter keeps the original order (it distributes over concatenation) |
| `Slots.LocationOf` | routes/bridges/alexa/index.js:221-228 | a resolved location comes from one of the candidates of rank at most 16, with that candidate's latitude as both coordinates and its display name |
| `Slots.LocationOfSpec` | routes/bridges/alexa/index.js:221-228 | unresolved iff every candidate has rank above 16; otherwise built from the first candidate of rank at most 16, with its latitude as both coordinates and its display name |
| `Slots.LocationSkipsLargeAreas` | routes/bridges/alexa/index.js:221-228 | a rank-20 then a rank-10 candidate yield the rank-10 one; only rank-20 candidates yield unresolved |
| `Slots.FirstResolutionId` | routes/bridges/alexa/index.js:156-162 | fails with `MalformedSlot` exactly when the slot has no resolutions object or the first resolution of the first authority has no values; a found id is the first value id of that resolution (the enum case, lines 191-196, reads it the same way) |
| `Slots.ResolvePresent` | routes/bridges/alexa/index.js:155-231 | a resolved value is of the kind the declared type names; only an unsupported type (`UnsupportedSlotType`) or a malformed boolean or enum slot (`MalformedSlot`) raises; booleans, strings, enums and unsupported types make no call, every other type makes exactly one call on the slot text (the location service for locations, the tokenizer otherwise) |
| `Slots.ResolveSlot` | routes/bridges/alexa/index.js:146-231 | one iteration makes at most one call; it raises only slot errors and only for a slot present in the request; a resolved value belongs to a present slot with a declared type and is of that type |
| `Slots.AbsentSlotUnresolved` | routes/bridges/alexa/index.js:148-153 | a slot absent from the request is unresolved and makes no collaborator call |
| `Slots.AuthorityResolution` | routes/bridges/alexa/index.js:155-196 | booleans and enums make no call; they are unresolved when the first authority or its resolution list is missing or empty, and otherwise `id == "true"` or the id of the first value |
| `Slots.TokenizedResolution` | routes/bridges/alexa/index.js:166-219 | numbers, times, currencies and dates tokenize the slot text once and are unresolved exactly when `NUMBER_0`, `TIME_0`, `CURRENCY_0` or `DATE_0` is absent from the tokenizer's entities; otherwise they hold that entity's number, its hour, minute and second (0 when missing), its amount and currency code, or `ParseDate` of its date form |
| `Slots.TimeSecondDefaultsToZero` | routes/bridges/alexa/index.js:203-204 | a time without seconds resolves with second 0 |
| `Slots.MeasureResolution` | routes/bridges/alexa/index.js:175-188 | a measure pairs the `NUMBER_0` value with the token after the first `NUMBER_0` |
| `Slots.MeasureExample` | routes/bridges/alexa/index.js:175-188 | "set timer for NUMBER_0 minutes" with `NUMBER_0 = 5` resolves to 5 minutes |
| `Slots.StringLocationMeasureResolution` | routes/bridges/alexa/index.js:163-228 | a string slot is its text verbatim with no call; a location slot makes exactly one location-service call on its text and yields `LocationOf` the candidates; a measure slot tokenizes once and is unresolved exactly when no `NUMBER_0` token has a token after it |
| `Slots.UnsupportedTypeFails` | routes/bridges/alexa/index.js:229-231 | a present slot of an unsupported type raises an error and makes no call |
| `Slots.ResolveOne` | routes/bridges/alexa/index.js:146-231 | one loop iteration, with the unit scan as a loop, gives exactly the per-type outcome `ResolveSlot` |
| `Slots.NatToStringInjective` | routes/bridges/alexa/index.js:149 | different positions have different decimal notations |
| `Slots.SlotKeyInjective` | routes/bridges/alexa/index.js:149 | different positions get different `SLOT_<i>` keys |
| `Slots.EntitiesUpTo` | routes/bridges/alexa/index.js:145-232 | after `n` iterations at most `n` collaborator calls have been made, all in the given language, and any error raised is a slot error |
| `Slots.EntitiesUpToSucceeds` | routes/bridges/alexa/index.js:145-232 | after `n` iterations the loop has not raised iff each of the first `n` slots resolves without error |
| `Slots.EntitiesUpToKeys` | routes/bridges/alexa/index.js:145-152 | a loop that has not raised has filled exactly the keys `SLOT_0 .. SLOT_<n-1>`, and `SLOT_i` holds the outcome of the `i`-th slot name |
| `Slots.EntitiesUpToFailure` | routes/bridges/alexa/index.js:229-231 | a loop that raised carries the error of the first slot that fails, every earlier slot having resolved |
| `Slots.EntitiesUpToTail` | routes/bridges/alexa/index.js:229-231 | once an iteration has raised, later iterations change nothing |
| `Slots.AlexaSlotsToEntities` | routes/bridges/alexa/index.js:142-235 | the loop returns exactly the state `EntitiesUpTo` after all iterations: succeeds iff every slot resolves, with keys `SLOT_0 .. SLOT_<n-1>` holding each slot's value, or fails with the first slot's error |
| `Intents.LastIndexOf` | routes/bridges/alexa/index.js:240 | the result is -1 or a position holding the character, and no later position holds it |
| `Intents.Substring` | routes/bridges/alexa/index.js:241-242 | as JavaScript's `substring`: never longer than the string; in-range ends in order give that slice, ends in reverse order give the slice between them, and two ends past the string give the empty string |
| `Intents.SplitIntentName` | routes/bridges/alexa/index.js:240-242 | the device is a prefix of the intent name, the name has no dot, and together they are no longer than the intent name |
| `Intents.SplitIntentNameSpec` | routes/bridges/alexa/index.js:240-242 | with a dot, device + "." + name is the intent name and the name has no dot; without one, the device is empty and the name is the whole intent name |
| `Intents.SplitIntentNameUnique` | routes/bridges/alexa/index.js:240-242 | any device and dot-free name that rejoin to the intent name are exactly what the split yields |
| `Intents.Classify` | routes/bridges/alexa/index.js:264-283 | session end and the stop intent give `bookkeeping(special(nevermind))`, launch gives `bookkeeping(special(wakeup))`; failure iff the request type is none of the three handled ones; the raw-command intent gives exactly the request's `command` slot, or nothing when it has none; exactly the other intent names go to the database path |
| `Intents.IntentFromDB` | routes/bridges/alexa/index.js:237-262 | an unknown example fails with `UnknownIntent` of the split device and name and makes no call; a compiled intent carries the id of the example stored under that split and the code parsed from it; any other failure is a slot error |
| `Intents.IntentFromDBEntities` | routes/bridges/alexa/index.js:237-261 | an unknown example fails with the split device and name and makes no call; a stored example compiles iff each of its arguments resolves; a compiled intent is the stored example's id and parsed code with one entity per example argument under `SLOT_<i>`, each that argument's resolved value |
| `Intents.GetIntentFromDB` | routes/bridges/alexa/index.js:237-262 | the method computes exactly `IntentFromDB`: the split, the lookup, the slot loop run with the locale |
| `Intents.ExtractThingTalkCode` | routes/bridges/alexa/index.js:264-284 | for each route of `Classify`, the program, the command text, the error or the compiled intent, making collaborator calls only on the database path |

## Left out

- HTTP plumbing: the Express router, the `authenticate` middleware and its passport bearer call, `I18n.handler`, and the 404 and error handlers (lines 27, 98-109, 307-317). They wire a foreign library.
- `handle` (lines 286-305): the user lookup, the engine manager, opening the conversation and dispatching the input. These are RPC calls into the engine. Its one-argument `new AlexaDelegate(res)` is not modelled; the delegate is modelled as declared, with `(locale, res)`.
- The tokenizer, the location service, the example store, ThingTalk's `Grammar.parse`, `toProgram` and `NNSyntax.toNN`, `I18n.localeToLanguage` and `message.toLocaleString`. These are foreign services and libraries; they are parameters. A missing example is modelled as a lookup that returns nothing, which fails with `UnknownIntent`.
- The tokenizer's contract is assumed (`ServicesConform`): each entity tag holds the kind of value its name says, and a `NUMBER_0` token comes with a `NUMBER_0` entity. The source relies on this without checking it.
- `async`/`await`: everything is sequential. A collaborator that fails or stalls is not modelled.
- The construction of the JavaScript `Date` in `parseDate` (lines 134-137) is left out: the split of a fractional second into milliseconds, month arithmetic and calendar normalisation. These need floating point and library calendar code. `ParseDate` stops at the integer field tuple. The clock is read once per request, not once per date slot.
- The slot payload is assumed well formed in these ways: `value` is always a string, `intent.slots` is present, and marker values are `null` or a string. The source's behaviour on an `undefined` value depends on the tokenizer and ThingTalk. Reading the resolutions of a slot that has no `resolutions` object, or whose first resolution has no values, raises a `TypeError` in the source; the model reports it as `MalformedSlot`. A declared type missing for a present slot is reported as `MissingSlotType`.
- The `icon` arguments and the unused parameters of `sendChoice` and `sendButton` are carried but have no effect, as in the source. `sessionAttributes` is always empty and is not a field of `Response`.
