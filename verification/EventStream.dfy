/** Folding an agent's event stream into one response, with partial-text callbacks. */
module EventStream {
  import opened Wrappers
  import opened JsonValues

  datatype Part =
    | TextPart(text: string)
    | FunctionCall(name: string, args: Json, id: Option<string>)
    | InlineData(mime: string, data: seq<bv8>)
    | OtherPart

  datatype ToolCall = ToolCall(name: string, args: Json, id: Option<string>)

  datatype Image = Image(mime: string, data: seq<bv8>)

  datatype Tokens = Tokens(prompt: int, completion: int, total: int)

  datatype Event = Event(
    author: string,
    errorMessage: Option<string>,
    usage: Option<Tokens>,
    content: Option<seq<Part>>,
    partial: bool,
    maxIterationsReached: bool,
    iterationCount: Option<Option<nat>>)

  /** The stream yields events, or an error with its user-facing text. */
  datatype Item = Arrived(event: Event) | Failed(text: string)

  datatype Response = Response(
    text: string,
    toolCalls: seq<ToolCall>,
    images: seq<Image>,
    tokens: Option<Tokens>,
    maxIterationsReached: bool,
    iterationCount: Option<nat>)

  const ERROR_PREFIX := "\U{26a0}\U{fe0f} Error: "
  const IMAGE_PREFIX := "image/"

  // ── What one event says ─────────────────────────────────────────

  predicate Counts(e: Event) {
    e.author != "user" && e.errorMessage.None? && e.content.Some?
  }

  function Texts(parts: seq<Part>): string {
    if parts == [] then ""
    else Texts(parts[..|parts| - 1]) + var p := parts[|parts| - 1]; if p.TextPart? then p.text else ""
  }

  function Calls(parts: seq<Part>): seq<ToolCall> {
    if parts == [] then []
    else
      Calls(parts[..|parts| - 1])
      + var p := parts[|parts| - 1]; if p.FunctionCall? then [ToolCall(p.name, p.args, p.id)] else []
  }

  function Images(parts: seq<Part>): seq<Image> {
    if parts == [] then []
    else
      Images(parts[..|parts| - 1])
      + var p := parts[|parts| - 1];
        if p.InlineData? && IMAGE_PREFIX <= p.mime then [Image(p.mime, p.data)] else []
  }

  /** The text an event adds to the partial text. */
  function PartialText(e: Event): string {
    if Counts(e) && e.partial then Texts(e.content.value) else ""
  }

  /** The final text an event sets, if any: an LLM error, or the text of a complete event. */
  function FinalText(e: Event): Option<string> {
    if e.author == "user" then None
    else if e.errorMessage.Some? then Some(ERROR_PREFIX + e.errorMessage.value)
    else if Counts(e) && !e.partial && Texts(e.content.value) != "" then Some(Texts(e.content.value))
    else None
  }

  function ToolCalls(e: Event): seq<ToolCall> { if Counts(e) then Calls(e.content.value) else [] }

  function EventImages(e: Event): seq<Image> { if Counts(e) then Images(e.content.value) else [] }

  // ── What a stream says ──────────────────────────────────────────

  /** The events before the first stream error. */
  function Before(items: seq<Item>): (events: seq<Event>)
    ensures |events| <= |items|
  {
    if items == [] || items[0].Failed? then [] else [items[0].event] + Before(items[1..])
  }

  function ErrorText(items: seq<Item>): Option<string> {
    if items == [] then None
    else if items[0].Failed? then Some(items[0].text)
    else ErrorText(items[1..])
  }

  function AllPartial(events: seq<Event>): string
    decreases |events|
  {
    if events == [] then "" else AllPartial(events[..|events| - 1]) + PartialText(events[|events| - 1])
  }

  function LastFinal(events: seq<Event>): Option<string>
    decreases |events|
  {
    if events == [] then None
    else if FinalText(events[|events| - 1]).Some? then FinalText(events[|events| - 1])
    else LastFinal(events[..|events| - 1])
  }

  function AllToolCalls(events: seq<Event>): seq<ToolCall>
    decreases |events|
  {
    if events == [] then [] else AllToolCalls(events[..|events| - 1]) + ToolCalls(events[|events| - 1])
  }

  function AllImages(events: seq<Event>): seq<Image>
    decreases |events|
  {
    if events == [] then [] else AllImages(events[..|events| - 1]) + EventImages(events[|events| - 1])
  }

  function LastUsage(events: seq<Event>): Option<Tokens>
    decreases |events|
  {
    if events == [] then None
    else
      var e := events[|events| - 1];
      if e.author != "user" && e.errorMessage.None? && e.usage.Some? then e.usage else LastUsage(events[..|events| - 1])
  }

  predicate HitLimit(events: seq<Event>) {
    exists i :: 0 <= i < |events| && events[i].maxIterationsReached
  }

  function LastCount(events: seq<Event>): Option<nat>
    decreases |events|
  {
    if events == [] then None
    else
      var e := events[|events| - 1];
      if e.maxIterationsReached && e.iterationCount.Some? then e.iterationCount.value else LastCount(events[..|events| - 1])
  }

  /** The error if the stream reached one, else the last final text, else all partial text. */
  function Resolved(items: seq<Item>): string {
    var events := Before(items);
    if ErrorText(items).Some? then ErrorText(items).value
    else if LastFinal(events).Some? then LastFinal(events).value
    else AllPartial(events)
  }

  /** What the callback is given: the partial text as of each event that extends it, until a final text exists. */
  function Callbacks(events: seq<Event>): seq<string>
    decreases |events|
  {
    if events == [] then []
    else
      Callbacks(events[..|events| - 1])
      + if PartialText(events[|events| - 1]) != "" && LastFinal(events).None? then [AllPartial(events)] else []
  }

  // ── The collector ───────────────────────────────────────────────

  /** The accumulators that the loop threads through its events. */
  datatype Acc = Acc(partial: string, final: Option<string>, calls: seq<ToolCall>, images: seq<Image>, tokens: Option<Tokens>)

  method ProcessEvent(e: Event, a: Acc) returns (r: Acc)
    ensures r.partial == a.partial + PartialText(e)
    ensures r.final == if FinalText(e).Some? then FinalText(e) else a.final
    ensures r.calls == a.calls + ToolCalls(e) && r.images == a.images + EventImages(e)
    ensures r.tokens == if e.author != "user" && e.errorMessage.None? && e.usage.Some? then e.usage else a.tokens
  {
    r := a;
    if e.author == "user" {
      return;
    }
    if e.errorMessage.Some? {
      return r.(final := Some(ERROR_PREFIX + e.errorMessage.value));
    }
    if e.usage.Some? {
      r := r.(tokens := e.usage);
    }
    if e.content.Some? {
      var parts, text := e.content.value, "";
      for i := 0 to |parts|
        invariant text == Texts(parts[..i])
        invariant r.calls == a.calls + Calls(parts[..i]) && r.images == a.images + Images(parts[..i])
        invariant r.partial == a.partial && r.final == a.final
        invariant r.tokens == if e.usage.Some? then e.usage else a.tokens
      {
        assert parts[..i + 1][..i] == parts[..i];
        match parts[i] {
          case TextPart(t) => text := text + t;
          case FunctionCall(name, args, id) => r := r.(calls := r.calls + [ToolCall(name, args, id)]);
          case InlineData(mime, data) =>
            if IMAGE_PREFIX <= mime {
              r := r.(images := r.images + [Image(mime, data)]);
            }
          case OtherPart =>
        }
      }
      assert parts[..|parts|] == parts;
      if text != "" {
        if e.partial {
          r := r.(partial := r.partial + text);
        } else {
          r := r.(final := Some(text));
        }
      }
    }
  }

  method ResolveText(final: Option<string>, partial: string, error: Option<string>) returns (text: string)
    ensures error.Some? ==> text == error.value
    ensures error.None? && final.Some? ==> text == final.value
    ensures error.None? && final.None? ==> text == partial
  {
    if error.Some? {
      return error.value;
    }
    if final.Some? {
      return final.value;
    }
    text := partial;
  }

  datatype Progress = Progress(acc: Acc, reached: bool, count: Option<nat>, callbacks: seq<string>)

  /** What the collector has gathered after a list of events. */
  function Gathered(events: seq<Event>): Progress {
    Progress(Acc(AllPartial(events), LastFinal(events), AllToolCalls(events), AllImages(events), LastUsage(events)),
             HitLimit(events), LastCount(events), Callbacks(events))
  }

  /** The loop body for one event. */
  method Observe(e: Event, p: Progress, ghost events: seq<Event>) returns (r: Progress)
    requires p == Gathered(events)
    ensures r == Gathered(events + [e])
  {
    r := p;
    if e.maxIterationsReached {
      r := r.(reached := true);
      if e.iterationCount.Some? {
        r := r.(count := e.iterationCount.value);
      }
    }
    var acc := ProcessEvent(e, p.acc);
    r := r.(acc := acc);
    assert (events + [e])[..|events|] == events;
    if acc.partial != p.acc.partial && acc.final.None? {
      r := r.(callbacks := r.callbacks + [acc.partial]);
    }
  }

  /** Consumes the stream up to its end or its first error, calling back with each longer partial text. */
  method Collect(items: seq<Item>) returns (r: Response, callbacks: seq<string>)
    ensures r.text == Resolved(items)
    ensures r.toolCalls == AllToolCalls(Before(items)) && r.images == AllImages(Before(items))
    ensures r.tokens == LastUsage(Before(items))
    ensures r.maxIterationsReached == HitLimit(Before(items)) && r.iterationCount == LastCount(Before(items))
    ensures callbacks == Callbacks(Before(items))
  {
    var p := Progress(Acc("", None, [], [], None), false, None, []);
    var error: Option<string> := None;
    ghost var events: seq<Event> := [];
    var i := 0;
    while i < |items| && error.None?
      invariant 0 <= i <= |items|
      invariant Consumed(items, i, events, error)
      invariant p == Gathered(events)
      decreases |items| - i, error.None?
    {
      NextItem(items, i, events);
      match items[i] {
        case Failed(text) =>
          error := Some(text);
        case Arrived(e) =>
          p := Observe(e, p, events);
          events := events + [e];
          i := i + 1;
      }
    }
    AllConsumed(items, i, events, error);
    var text := ResolveText(p.acc.final, p.acc.partial, error);
    r := Response(text, p.acc.calls, p.acc.images, p.acc.tokens, p.reached, p.count);
    callbacks := p.callbacks;
  }

  /** `events` are those read so far, and `error` the stream error, if that is what stopped the reading. */
  ghost predicate Consumed(items: seq<Item>, i: nat, events: seq<Event>, error: Option<string>)
    requires i <= |items|
  {
    if error.Some? then events == Before(items) && ErrorText(items) == error
    else Before(items) == events + Before(items[i..]) && ErrorText(items) == ErrorText(items[i..])
  }

  lemma NextItem(items: seq<Item>, i: nat, events: seq<Event>)
    requires i < |items| && Consumed(items, i, events, None)
    ensures items[i].Failed? ==> Consumed(items, i, events, Some(items[i].text))
    ensures items[i].Arrived? ==> Consumed(items, i + 1, events + [items[i].event], None)
  {
  }

  lemma AllConsumed(items: seq<Item>, i: nat, events: seq<Event>, error: Option<string>)
    requires i <= |items| && Consumed(items, i, events, error) && (i == |items| || error.Some?)
    ensures events == Before(items) && ErrorText(items) == error
  {
  }

  // ── Callbacks ───────────────────────────────────────────────────

  /** Each text is a proper prefix of every later one. */
  predicate Growing(texts: seq<string>) {
    forall i, j :: 0 <= i < j < |texts| ==> texts[i] < texts[j]
  }

  /** Callback texts grow strictly, each a prefix of the whole partial text. */
  lemma {:induction false} CallbacksGrow(events: seq<Event>)
    ensures Growing(Callbacks(events))
    ensures forall i :: 0 <= i < |Callbacks(events)| ==> Callbacks(events)[i] <= AllPartial(events)
    decreases |events|
  {
    if events != [] {
      var m := |events| - 1;
      CallbacksGrow(events[..m]);
    }
  }

  lemma {:induction false} LastFinalSticks(events: seq<Event>, n: nat)
    requires n <= |events| && LastFinal(events[..n]).Some?
    ensures LastFinal(events).Some?
    decreases |events|
  {
    if n < |events| {
      assert events[..|events| - 1][..n] == events[..n];
      LastFinalSticks(events[..|events| - 1], n);
    } else {
      assert events[..n] == events;
    }
  }

  /** Once a final text exists there are no more callbacks, whatever still arrives. */
  lemma {:induction false} CallbacksStopAtFinal(events: seq<Event>, n: nat)
    requires n <= |events| && LastFinal(events[..n]).Some?
    ensures Callbacks(events) == Callbacks(events[..n])
    decreases |events|
  {
    if n < |events| {
      assert events[..|events| - 1][..n] == events[..n];
      CallbacksStopAtFinal(events[..|events| - 1], n);
      LastFinalSticks(events, n);
    } else {
      assert events[..n] == events;
    }
  }

  /** Until then there is one callback per event that brings partial text, the last with all of it. */
  lemma {:induction false} CallbacksComplete(events: seq<Event>)
    requires LastFinal(events).None?
    ensures AllPartial(events) == if Callbacks(events) == [] then "" else Callbacks(events)[|Callbacks(events)| - 1]
    decreases |events|
  {
    if events != [] {
      CallbacksComplete(events[..|events| - 1]);
    }
  }

  /** What is reported of a stream depends only on what precedes its first error. */
  lemma {:induction false} NothingAfterError(items: seq<Item>, text: string, rest: seq<Item>)
    ensures Before(items + [Failed(text)] + rest) == Before(items)
    ensures ErrorText(items + [Failed(text)] + rest) == if ErrorText(items).Some? then ErrorText(items) else Some(text)
  {
    if items != [] {
      NothingAfterError(items[1..], text, rest);
      assert (items + [Failed(text)] + rest)[1..] == items[1..] + [Failed(text)] + rest;
    }
  }

  // ── The response, from the events themselves ────────────────────

  function Word(p: Part): string {
    match p case TextPart(t) => t case _ => ""
  }

  function CallIn(p: Part): seq<ToolCall> {
    match p case FunctionCall(name, args, id) => [ToolCall(name, args, id)] case _ => []
  }

  function PictureIn(p: Part): seq<Image> {
    match p case InlineData(mime, data) => (if "image/" <= mime then [Image(mime, data)] else []) case _ => []
  }

  /** What `f` finds in each element, one after the other. */
  function Collected<T, U>(f: T -> seq<U>, xs: seq<T>): seq<U> {
    if xs == [] then [] else f(xs[0]) + Collected(f, xs[1..])
  }

  lemma {:induction false} OneMore<T, U>(f: T -> seq<U>, xs: seq<T>, x: T)
    ensures Collected(f, xs + [x]) == Collected(f, xs) + f(x)
  {
    if xs == [] {
      assert xs + [x] == [x] && [x][1..] == [];
    } else {
      assert (xs + [x])[1..] == xs[1..] + [x];
      OneMore(f, xs[1..], x);
    }
  }

  function Said(parts: seq<Part>): string { Collected(Word, parts) }

  function Called(parts: seq<Part>): seq<ToolCall> { Collected(CallIn, parts) }

  function Pictured(parts: seq<Part>): seq<Image> { Collected(PictureIn, parts) }

  lemma {:induction false} PartsMean(parts: seq<Part>)
    ensures Texts(parts) == Said(parts) && Calls(parts) == Called(parts) && Images(parts) == Pictured(parts)
    decreases |parts|
  {
    if parts != [] {
      var rest, p := parts[..|parts| - 1], parts[|parts| - 1];
      PartsMean(rest);
      OneMore(Word, rest, p);
      OneMore(CallIn, rest, p);
      OneMore(PictureIn, rest, p);
      assert parts == rest + [p];
    }
  }

  /** The event carries content of the agent's. */
  predicate Speaks(e: Event) {
    e.author != "user" && e.errorMessage == None && e.content.Some?
  }

  /** The event gives a final text: an LLM error, or all that a complete event says. */
  predicate Ends(e: Event, text: string) {
    && e.author != "user"
    && match e.errorMessage
       case Some(why) => text == "\U{26a0}\U{fe0f} Error: " + why
       case None => e.content.Some? && !e.partial && text != "" && text == Said(e.content.value)
  }

  lemma FinalTextMeans(e: Event)
    ensures forall text :: FinalText(e) == Some(text) <==> Ends(e, text)
  {
    if e.content.Some? {
      PartsMean(e.content.value);
    }
  }

  function Telling(e: Event): string { if Speaks(e) && e.partial then Said(e.content.value) else "" }

  function Calling(e: Event): seq<ToolCall> { if Speaks(e) then Called(e.content.value) else [] }

  function Picturing(e: Event): seq<Image> { if Speaks(e) then Pictured(e.content.value) else [] }

  lemma {:induction false} EventsMean(events: seq<Event>)
    ensures AllPartial(events) == Collected(Telling, events)
    ensures AllToolCalls(events) == Collected(Calling, events)
    ensures AllImages(events) == Collected(Picturing, events)
    decreases |events|
  {
    if events != [] {
      var rest, e := events[..|events| - 1], events[|events| - 1];
      EventsMean(rest);
      OneMore(Telling, rest, e);
      OneMore(Calling, rest, e);
      OneMore(Picturing, rest, e);
      assert events == rest + [e];
      if e.content.Some? {
        PartsMean(e.content.value);
      }
    }
  }

  /** Event `i` is the last with a final text. */
  ghost predicate LastToEnd(events: seq<Event>, i: nat, text: string) {
    && i < |events| && Ends(events[i], text)
    && forall j, other :: i < j < |events| ==> !Ends(events[j], other)
  }

  lemma {:induction false} LastFinalAt(events: seq<Event>) returns (i: nat)
    ensures i <= |events| && forall j :: i < j < |events| ==> FinalText(events[j]) == None
    ensures if i < |events| then FinalText(events[i]).Some? && LastFinal(events) == FinalText(events[i])
            else LastFinal(events) == None && forall j :: 0 <= j < |events| ==> FinalText(events[j]) == None
    decreases |events|
  {
    i := 0;
    if events != [] {
      var m := |events| - 1;
      i := LastFinalAt(events[..m]);
      i := if FinalText(events[m]).Some? then m else if i == m then m + 1 else i;
    }
  }

  /**
   * What is collected from a stream whose first `n` items are events, the next, if any, its error:
   * the error's text, else the last final text, else all that partial events say; and every tool
   * call and image that the agent's events carry, in order.
   */
  lemma CollectedMeans(items: seq<Item>, n: nat, events: seq<Event>)
    requires n <= |items| && |events| == n && (n < |items| ==> items[n].Failed?)
    requires forall i :: 0 <= i < n ==> items[i] == Arrived(events[i])
    ensures n < |items| ==> Resolved(items) == items[n].text
    ensures n == |items| ==>
              forall i: nat, text :: LastToEnd(events, i, text) ==> Resolved(items) == text
    ensures n == |items| && (forall i, text :: 0 <= i < n ==> !Ends(events[i], text)) ==>
              Resolved(items) == Collected(Telling, events)
    ensures AllToolCalls(Before(items)) == Collected(Calling, events)
    ensures AllImages(Before(items)) == Collected(Picturing, events)
  {
    EventsBefore(items, n, events);
    EventsMean(events);
    if n == |items| {
      FinalMeans(events);
    }
  }

  lemma FinalMeans(events: seq<Event>)
    ensures forall i: nat, text :: LastToEnd(events, i, text) ==> LastFinal(events) == Some(text)
    ensures (forall i, text :: 0 <= i < |events| ==> !Ends(events[i], text)) ==> LastFinal(events) == None
  {
    var k := LastFinalAt(events);
    forall i | 0 <= i < |events| ensures forall text :: FinalText(events[i]) == Some(text) <==> Ends(events[i], text) {
      FinalTextMeans(events[i]);
    }
    if k < |events| {
      assert Ends(events[k], FinalText(events[k]).value);
    }
    forall i: nat, text | LastToEnd(events, i, text) ensures i == k {
      assert FinalText(events[i]) == Some(text);
    }
  }

  lemma {:induction false} EventsBefore(items: seq<Item>, n: nat, events: seq<Event>)
    requires n <= |items| && |events| == n && (n < |items| ==> items[n].Failed?)
    requires forall i :: 0 <= i < n ==> items[i] == Arrived(events[i])
    ensures Before(items) == events
    ensures ErrorText(items) == if n < |items| then Some(items[n].text) else None
  {
    if n > 0 {
      EventsBefore(items[1..], n - 1, events[1..]);
    }
  }

  /**
   * Event `i` brings a callback exactly when it says something partial and no event up to it gives a
   * final text; the callback is given all that partial events have said.
   */
  lemma CallbackAt(events: seq<Event>, i: nat)
    requires i < |events|
    ensures Callbacks(events[..i + 1])
            == Callbacks(events[..i])
               + if Telling(events[i]) != "" && NoneEnds(events[..i + 1])
                 then [Collected(Telling, events[..i + 1])] else []
  {
    var upto := events[..i + 1];
    assert upto[..i] == events[..i] && upto[i] == events[i];
    EventsMean(upto);
    NoneEndsMeans(upto);
    if events[i].content.Some? {
      PartsMean(events[i].content.value);
    }
  }

  ghost predicate NoneEnds(events: seq<Event>) {
    forall i, text :: 0 <= i < |events| ==> !Ends(events[i], text)
  }

  lemma NoneEndsMeans(events: seq<Event>)
    ensures NoneEnds(events) <==> LastFinal(events) == None
  {
    FinalMeans(events);
    var k := LastFinalAt(events);
    forall i | 0 <= i < |events| ensures forall text :: FinalText(events[i]) == Some(text) <==> Ends(events[i], text) {
      FinalTextMeans(events[i]);
    }
    if k < |events| {
      assert Ends(events[k], FinalText(events[k]).value);
    }
  }

  // ── Usage and limits ────────────────────────────────────────────

  /** The event reports token usage. */
  predicate Reports(e: Event) {
    e.author != "user" && e.errorMessage == None && e.usage.Some?
  }

  predicate Counted(e: Event) {
    e.maxIterationsReached && e.iterationCount.Some?
  }

  /** The usage is that of the last event that reports any. */
  lemma {:induction false} LastUsageMeans(events: seq<Event>) returns (i: nat)
    ensures i <= |events| && forall j :: i < j < |events| ==> !Reports(events[j])
    ensures if i < |events| then Reports(events[i]) && LastUsage(events) == events[i].usage
            else LastUsage(events) == None && forall j :: 0 <= j < |events| ==> !Reports(events[j])
    decreases |events|
  {
    i := 0;
    if events != [] {
      var m := |events| - 1;
      i := LastUsageMeans(events[..m]);
      i := if Reports(events[m]) then m else if i == m then m + 1 else i;
    }
  }

  /** The iteration count is that of the last event that reached the limit and gave one. */
  lemma {:induction false} LastCountMeans(events: seq<Event>) returns (i: nat)
    ensures i <= |events| && forall j :: i < j < |events| ==> !Counted(events[j])
    ensures if i < |events| then Counted(events[i]) && LastCount(events) == events[i].iterationCount.value
            else LastCount(events) == None && forall j :: 0 <= j < |events| ==> !Counted(events[j])
    decreases |events|
  {
    i := 0;
    if events != [] {
      var m := |events| - 1;
      i := LastCountMeans(events[..m]);
      i := if Counted(events[m]) then m else if i == m then m + 1 else i;
    }
  }
}
