/** The turn delegate of the Alexa bridge (`AlexaDelegate`): it collects the
    output the assistant engine produces during one turn and renders it as the
    single JSON response the platform's webhook protocol allows.

    The module has two halves: a value-level model of the delegate's state and
    of the stream of output events (`Turn`, `Event`, `Step`, `Run`,
    `Responses`) with the properties of whole event streams proved about it,
    and the `AlexaDelegate` class itself, whose methods are proved to make
    exactly the step the value-level model describes. */
module Delegate {
  import opened Results

  /** The only URL the delegate turns into a card. */
  const RegisterUrl := "/user/register"

  datatype Card = LinkAccount

  /** A rich deep link card; only its title is spoken. */
  datatype Rdl = Rdl(displayTitle: string, displayText: string, webCallback: string)

  /** The webhook response: `response.outputSpeech.type` and `.text`, `response.card`,
      `response.shouldEndSession`; `sessionAttributes` is always empty. */
  datatype Response = Response(version: string, speechType: string, text: string, card: Option<Card>, shouldEndSession: bool)

  /** The delegate's state: `_buffer`, `_card`, `_askSpecial` (None is `null`) and `_done`. */
  datatype Turn = Turn(buffer: string, card: Option<Card>, askSpecial: Option<string>, done: bool)

  const Initial := Turn("", None, None, false)

  /** One call the engine makes on the delegate. A formatted message is
      represented by its `toLocaleString` function. */
  datatype Event =
    | Text(text: string, icon: Option<string>)
    | Picture(url: string, icon: Option<string>)
    | RdlItem(rdl: Rdl, icon: Option<string>)
    | Choice(idx: int, what: string, title: string, choiceText: string)
    | Button(title: string, json: string)
    | Link(title: string, url: string)
    | Message(toLocaleString: string -> string, icon: Option<string>)
    | AskSpecial(marker: Option<string>)
    | Flush

  /** The response `flush` renders from a state. */
  function Render(t: Turn): (r: Response)
    ensures r.version == "1.0" && r.speechType == "PlainText"
    ensures r.text == t.buffer && r.card == t.card
    ensures r.shouldEndSession <==> t.askSpecial.None?
  {
    Response("1.0", "PlainText", t.buffer, t.card, t.askSpecial.None?)
  }

  /** The state after one call: the call's line is appended, the card changes
      only on a link to the registration page, the marker only on
      `sendAskSpecial`, and only a flush sets `done`. */
  function Step(locale: string, t: Turn, e: Event): (r: Turn)
    ensures r.buffer == t.buffer + Line(locale, e)
    ensures r.card == (if IsAccountLink(e) then Some(LinkAccount) else t.card)
    ensures r.askSpecial == (if e.AskSpecial? then e.marker else t.askSpecial)
    ensures r.done <==> t.done || e.Flush?
  {
    match e
    case Text(text, _) => t.(buffer := t.buffer + text + "\n")
    case Picture(_, _) => t
    case RdlItem(rdl, _) => t.(buffer := t.buffer + rdl.displayTitle + "\n")
    case Choice(_, _, title, _) => t.(buffer := t.buffer + title + "\n")
    case Button(_, _) => t
    case Link(_, url) => if url == RegisterUrl then t.(card := Some(LinkAccount)) else t
    case Message(toLocaleString, _) => t.(buffer := t.buffer + toLocaleString(locale) + "\n")
    case AskSpecial(marker) => t.(askSpecial := marker)
    case Flush => t.(done := true)
  }

  /** The responses one call emits: one for the first flush, none otherwise. */
  function Emit(t: Turn, e: Event): (r: seq<Response>)
    ensures |r| <= 1
    ensures |r| == 1 <==> e.Flush? && !t.done
    ensures |r| == 1 ==> r[0].text == t.buffer && r[0].card == t.card
  {
    if e.Flush? && !t.done then [Render(t)] else []
  }

  /** The state after a stream of calls. */
  function Run(locale: string, t: Turn, events: seq<Event>): Turn
    decreases |events|
  {
    if |events| == 0 then t else Run(locale, Step(locale, t, events[0]), events[1..])
  }

  /** Everything a stream of calls emits. */
  function Responses(locale: string, t: Turn, events: seq<Event>): seq<Response>
    decreases |events|
  {
    if |events| == 0 then []
    else Emit(t, events[0]) + Responses(locale, Step(locale, t, events[0]), events[1..])
  }

  predicate HasFlush(events: seq<Event>) {
    exists i :: 0 <= i < |events| && events[i].Flush?
  }

  /** The spoken line a call contributes, independently of the state. */
  function Line(locale: string, e: Event): string {
    match e
    case Text(text, _) => text + "\n"
    case RdlItem(rdl, _) => rdl.displayTitle + "\n"
    case Choice(_, _, title, _) => title + "\n"
    case Message(toLocaleString, _) => toLocaleString(locale) + "\n"
    case _ => ""
  }

  function Lines(locale: string, events: seq<Event>): string
    decreases |events|
  {
    if |events| == 0 then "" else Line(locale, events[0]) + Lines(locale, events[1..])
  }

  predicate IsAccountLink(e: Event) {
    e.Link? && e.url == RegisterUrl
  }

  /** Position `j` holds the last `sendAskSpecial` of the stream. */
  predicate LastAskSpecialAt(events: seq<Event>, j: int) {
    0 <= j < |events| && events[j].AskSpecial? &&
    forall m :: j < m < |events| ==> !events[m].AskSpecial?
  }

  /** Position `k` holds the first `flush` of the stream. */
  predicate FirstFlushAt(events: seq<Event>, k: int) {
    0 <= k < |events| && events[k].Flush? &&
    forall j :: 0 <= j < k ==> !events[j].Flush?
  }

  lemma HasFlushTail(events: seq<Event>)
    requires |events| > 0
    ensures HasFlush(events) <==> events[0].Flush? || HasFlush(events[1..])
  {
    if HasFlush(events) && !events[0].Flush? {
      var i :| 0 <= i < |events| && events[i].Flush?;
      assert events[1..][i - 1].Flush?;
    }
    if HasFlush(events[1..]) {
      var i :| 0 <= i < |events[1..]| && events[1..][i].Flush?;
      assert events[i + 1].Flush?;
    }
  }

  /** A delegate that has flushed stays flushed and never emits again. */
  lemma {:induction false} SilentOnceDone(locale: string, t: Turn, events: seq<Event>)
    requires t.done
    ensures Run(locale, t, events).done
    ensures Responses(locale, t, events) == []
    decreases |events|
  {
    if |events| > 0 {
      SilentOnceDone(locale, Step(locale, t, events[0]), events[1..]);
    }
  }

  /** At-most-once emission: any stream of calls emits exactly one response if
      the delegate had not flushed yet and the stream contains a flush, and none
      otherwise; the delegate ends flushed iff it was or the stream flushes. */
  lemma {:induction false} AtMostOneResponse(locale: string, t: Turn, events: seq<Event>)
    ensures Run(locale, t, events).done == (t.done || HasFlush(events))
    ensures |Responses(locale, t, events)| == (if !t.done && HasFlush(events) then 1 else 0)
    decreases |events|
  {
    if |events| > 0 {
      HasFlushTail(events);
      AtMostOneResponse(locale, Step(locale, t, events[0]), events[1..]);
    }
  }

  /** The one response is rendered from the state reached just before the first flush. */
  lemma {:induction false} ResponseAtFirstFlush(locale: string, t: Turn, events: seq<Event>, k: int)
    requires !t.done && FirstFlushAt(events, k)
    ensures Responses(locale, t, events) == [Render(Run(locale, t, events[..k]))]
    decreases k
  {
    if k == 0 {
      SilentOnceDone(locale, Step(locale, t, events[0]), events[1..]);
    } else {
      var rest := events[1..];
      assert FirstFlushAt(rest, k - 1) by {
        forall j | 0 <= j < k - 1 ensures !rest[j].Flush? { assert rest[j] == events[j + 1]; }
      }
      ResponseAtFirstFlush(locale, Step(locale, t, events[0]), rest, k - 1);
      assert events[..k][1..] == rest[..k - 1];
    }
  }

  /** What the buffer holds: the lines of every text-producing call, in order,
      whether or not the delegate has flushed. */
  lemma {:induction false} BufferIsLines(locale: string, t: Turn, events: seq<Event>)
    ensures Run(locale, t, events).buffer == t.buffer + Lines(locale, events)
    decreases |events|
  {
    if |events| > 0 {
      var e := events[0];
      BufferIsLines(locale, Step(locale, t, e), events[1..]);
      assert Step(locale, t, e).buffer == t.buffer + Line(locale, e);
    }
  }

  /** The card becomes the account-linking card iff some call links to the
      registration page, and is otherwise untouched. */
  lemma {:induction false} CardOnlyFromRegisterLink(locale: string, t: Turn, events: seq<Event>)
    ensures (exists j :: 0 <= j < |events| && IsAccountLink(events[j])) ==> Run(locale, t, events).card == Some(LinkAccount)
    ensures (forall j :: 0 <= j < |events| ==> !IsAccountLink(events[j])) ==> Run(locale, t, events).card == t.card
    decreases |events|
  {
    if |events| > 0 {
      var rest := events[1..];
      CardOnlyFromRegisterLink(locale, Step(locale, t, events[0]), rest);
      if exists j :: 0 <= j < |events| && IsAccountLink(events[j]) {
        var j :| 0 <= j < |events| && IsAccountLink(events[j]);
        if j > 0 {
          assert IsAccountLink(rest[j - 1]);
        } else {
          SticksToCard(locale, Step(locale, t, events[0]), rest);
        }
      } else {
        forall j | 0 <= j < |rest| ensures !IsAccountLink(rest[j]) { assert rest[j] == events[j + 1]; }
      }
    }
  }

  /** Once set, the account-linking card is never removed. */
  lemma {:induction false} SticksToCard(locale: string, t: Turn, events: seq<Event>)
    requires t.card == Some(LinkAccount)
    ensures Run(locale, t, events).card == Some(LinkAccount)
    decreases |events|
  {
    if |events| > 0 {
      SticksToCard(locale, Step(locale, t, events[0]), events[1..]);
    }
  }

  /** The "ask special" marker is the one given by the last `sendAskSpecial`,
      or the initial one when there is none. */
  lemma {:induction false} AskSpecialIsLast(locale: string, t: Turn, events: seq<Event>)
    ensures (forall j :: 0 <= j < |events| ==> !events[j].AskSpecial?) ==> Run(locale, t, events).askSpecial == t.askSpecial
    ensures forall j :: LastAskSpecialAt(events, j) ==> Run(locale, t, events).askSpecial == events[j].marker
    decreases |events|
  {
    if |events| > 0 {
      var rest := events[1..];
      AskSpecialIsLast(locale, Step(locale, t, events[0]), rest);
      forall j | LastAskSpecialAt(events, j)
        ensures Run(locale, t, events).askSpecial == events[j].marker
      {
        if j > 0 {
          assert LastAskSpecialAt(rest, j - 1) by {
            forall m | j - 1 < m < |rest| ensures !rest[m].AskSpecial? { assert rest[m] == events[m + 1]; }
          }
        } else {
          forall m | 0 <= m < |rest| ensures !rest[m].AskSpecial? { assert rest[m] == events[m + 1]; }
        }
      }
      if forall j :: 0 <= j < |events| ==> !events[j].AskSpecial? {
        forall m | 0 <= m < |rest| ensures !rest[m].AskSpecial? { assert rest[m] == events[m + 1]; }
      }
    }
  }

  /** Stands in for the Express response object: what `res.json` has been given. */
  class ResponseSink {
    var sent: seq<Response>

    constructor ()
      ensures sent == []
    {
      sent := [];
    }

    method Json(r: Response)
      modifies this
      ensures sent == old(sent) + [r]
    {
      sent := sent + [r];
    }
  }

  class AlexaDelegate {
    const locale: string
    const res: ResponseSink
    var buffer: string
    var card: Option<Card>
    var askSpecial: Option<string>
    var done: bool

    // what this delegate handed to res.json, and what res held before it
    ghost var emitted: seq<Response>
    ghost var earlier: seq<Response>

    /** The sink holds this delegate's responses after the earlier ones, and
        the delegate has emitted one response iff it is done, none otherwise. */
    ghost predicate Valid()
      reads this, res
    {
      res.sent == earlier + emitted && |emitted| == (if done then 1 else 0)
    }

    ghost function State(): Turn
      reads this
    {
      Turn(buffer, card, askSpecial, done)
    }

    constructor (locale: string, res: ResponseSink)
      ensures Valid() && this.locale == locale && this.res == res
      ensures State() == Initial && emitted == []
    {
      this.locale := locale;
      this.res := res;
      buffer := "";
      card := None;
      askSpecial := None;
      done := false;
      emitted := [];
      earlier := res.sent;
    }

    /** Emits the response once: a second flush changes nothing. */
    method Flush()
      requires Valid()
      modifies this, res
      ensures Valid() && done && |emitted| == 1
      ensures old(done) ==> State() == old(State()) && res.sent == old(res.sent) && emitted == old(emitted)
      ensures !old(done) ==> res.sent == old(res.sent) + [Response("1.0", "PlainText", old(buffer), old(card), old(askSpecial) == None)]
      ensures buffer == old(buffer) && card == old(card) && askSpecial == old(askSpecial)
      ensures State() == Step(locale, old(State()), Event.Flush) && emitted == old(emitted) + Emit(old(State()), Event.Flush)
    {
      if done {
        return;
      }
      done := true;
      var response := Response("1.0", "PlainText", buffer, card, askSpecial == None);
      res.Json(response);
      emitted := emitted + [response];
    }

    method Send(text: string, icon: Option<string>)
      requires Valid()
      modifies this
      ensures Valid() && emitted == old(emitted)
      ensures buffer == old(buffer) + text + "\n"
      ensures card == old(card) && askSpecial == old(askSpecial) && done == old(done)
      ensures State() == Step(locale, old(State()), Text(text, icon))
    {
      buffer := buffer + text + "\n";
    }

    method SendPicture(url: string, icon: Option<string>)
      requires Valid()
      modifies this
      ensures Valid() && emitted == old(emitted)
      ensures State() == old(State())
      ensures State() == Step(locale, old(State()), Picture(url, icon))
    {
    }

    method SendRdl(rdl: Rdl, icon: Option<string>)
      requires Valid()
      modifies this
      ensures Valid() && emitted == old(emitted)
      ensures buffer == old(buffer) + rdl.displayTitle + "\n"
      ensures card == old(card) && askSpecial == old(askSpecial) && done == old(done)
      ensures State() == Step(locale, old(State()), RdlItem(rdl, icon))
    {
      buffer := buffer + rdl.displayTitle + "\n";
    }

    method SendChoice(idx: int, what: string, title: string, text: string)
      requires Valid()
      modifies this
      ensures Valid() && emitted == old(emitted)
      ensures buffer == old(buffer) + title + "\n"
      ensures card == old(card) && askSpecial == old(askSpecial) && done == old(done)
      ensures State() == Step(locale, old(State()), Choice(idx, what, title, text))
    {
      buffer := buffer + title + "\n";
    }

    method SendButton(title: string, json: string)
      requires Valid()
      modifies this
      ensures Valid() && emitted == old(emitted)
      ensures State() == old(State())
      ensures State() == Step(locale, old(State()), Button(title, json))
    {
    }

    /** Only the registration page becomes a card; other links are dropped. */
    method SendLink(title: string, url: string)
      requires Valid()
      modifies this
      ensures Valid() && emitted == old(emitted)
      ensures card == (if url == RegisterUrl then Some(LinkAccount) else old(card))
      ensures buffer == old(buffer) && askSpecial == old(askSpecial) && done == old(done)
      ensures State() == Step(locale, old(State()), Link(title, url))
    {
      if url == RegisterUrl {
        card := Some(LinkAccount);
      }
    }

    method SendResult(toLocaleString: string -> string, icon: Option<string>)
      requires Valid()
      modifies this
      ensures Valid() && emitted == old(emitted)
      ensures buffer == old(buffer) + toLocaleString(locale) + "\n"
      ensures card == old(card) && askSpecial == old(askSpecial) && done == old(done)
      ensures State() == Step(locale, old(State()), Message(toLocaleString, icon))
    {
      buffer := buffer + toLocaleString(locale) + "\n";
    }

    method SendAskSpecial(what: Option<string>)
      requires Valid()
      modifies this
      ensures Valid() && emitted == old(emitted)
      ensures askSpecial == what
      ensures buffer == old(buffer) && card == old(card) && done == old(done)
      ensures State() == Step(locale, old(State()), AskSpecial(what))
    {
      askSpecial := what;
    }
  }

  /** A turn as the engine drives it: two flushes emit one response, and an
      "ask special" marker keeps the session open. */
  method ExampleTurn() {
    var res := new ResponseSink();
    var delegate := new AlexaDelegate("en-US", res);
    delegate.Send("Which one?", None);
    delegate.SendChoice(0, "a", "first", "");
    delegate.SendAskSpecial(Some("choice"));
    assert delegate.buffer == "Which one?\nfirst\n";
    delegate.Flush();
    delegate.Flush();
    assert res.sent == [Response("1.0", "PlainText", "Which one?\nfirst\n", None, false)];
  }
}
