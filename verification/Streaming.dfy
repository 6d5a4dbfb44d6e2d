/** Edit-in-place streaming delivery: a placeholder, throttled edits, and a final edit, as values. */
module StreamingState {
  import opened Wrappers

  /** What the channel answers. The benign refusal of an edit says that the text was already there. */
  datatype SendReply = Sent(id: Option<string>) | SendFailed
  datatype EditReply = Edited | NotModified | EditFailed

  /** The channel's answers to the calls one delivery step may make. */
  datatype Replies = Replies(send: SendReply, edit: EditReply, retry: EditReply)

  /** The clock as read to test the throttle, as read to record an edit, and when a retry is sent. */
  datatype Tick = Tick(checked: nat, stamped: nat, retried: nat)

  /**
   * A channel call. `id` names the message for later edits; a message sent may have no name. `at`
   * is the time of a call made for a partial text.
   */
  datatype Call =
    | Send(text: string, partial: bool, id: Option<string>, at: Option<nat>, sendReply: SendReply)
    | Edit(target: string, text: string, retry: bool, at: Option<nat>, editReply: EditReply)

  datatype Delivery = Delivery(sent: Option<string>, lastEdit: Option<nat>, latest: string, calls: seq<Call>)

  const FRESH := Delivery(None, None, "", [])

  /** The name of a message just sent: the channel's, else the one the caller supplies. */
  function NameOf(reply: SendReply, reference: Option<string>): Option<string> {
    if reply.SendFailed? then None else if reply.id.Some? then reply.id else reference
  }

  /** One edit, and one retry with the latest text if it fails; completions have no tick. */
  function TryEdit(d: Delivery, id: string, text: string, tick: Option<Tick>, re: Replies): (Delivery, bool) {
    var at := if tick.Some? then Some(tick.value.stamped) else None;
    var once := d.(calls := d.calls + [Edit(id, text, false, at, re.edit)]);
    if re.edit != EditFailed then (once, true)
    else
      var again := if d.latest == "" then text else d.latest;
      var later := if tick.Some? then Some(tick.value.retried) else None;
      (once.(calls := once.calls + [Edit(id, again, true, later, re.retry)]), re.retry == Edited)
  }

  predicate TooSoon(d: Delivery, interval: nat, t: Tick) {
    d.lastEdit.Some? && t.checked < d.lastEdit.value + interval
  }

  function OnPartial(d: Delivery, interval: nat, text: string, reference: Option<string>, tick: Tick, re: Replies)
    : (Delivery, bool)
  {
    var d1 := d.(latest := text);
    if d.sent.None? then
      match re.send
      case SendFailed => (d1.(calls := d.calls + [Send(text, true, None, None, re.send)]), false)
      case Sent(_) =>
        var id := NameOf(re.send, reference);
        (d1.(sent := id, lastEdit := Some(tick.stamped),
             calls := d.calls + [Send(text, true, id, Some(tick.stamped), re.send)]), true)
    else if TooSoon(d, interval, tick) then
      (d1, true)
    else
      TryEdit(d1.(lastEdit := Some(tick.stamped)), d.sent.value, text, Some(tick), re)
  }

  function OnComplete(d: Delivery, text: string, re: Replies): (Delivery, bool) {
    var d1 := d.(latest := text);
    if d.sent.Some? then TryEdit(d1, d.sent.value, text, None, re)
    else (d1.(calls := d.calls + [Send(text, false, NameOf(re.send, None), None, re.send)]), re.send.Sent?)
  }

  // ── What the user sees ──────────────────────────────────────────

  datatype Message = Message(id: Option<string>, text: string)

  function Retext(shown: seq<Message>, id: string, text: string): seq<Message> {
    seq(|shown|, i requires 0 <= i < |shown| =>
      if shown[i].id == Some(id) then shown[i].(text := text) else shown[i])
  }

  function Show(shown: seq<Message>, c: Call): seq<Message> {
    match c
    case Send(text, _, id, _, reply) => if reply.Sent? then shown + [Message(id, text)] else shown
    case Edit(id, text, _, _, reply) => if reply == Edited then Retext(shown, id, text) else shown
  }

  /** The messages on screen, in the order in which they were posted. */
  function Screen(calls: seq<Call>): seq<Message>
    decreases |calls|
  {
    if calls == [] then [] else Show(Screen(calls[..|calls| - 1]), calls[|calls| - 1])
  }

  function TextsOf(shown: seq<Message>): seq<string> {
    seq(|shown|, i requires 0 <= i < |shown| => shown[i].text)
  }

  /** An attempt to write to the placeholder while partial texts arrive, and whether it is a retry. */
  datatype Attempt = Attempt(time: nat, retry: bool)

  function AttemptOf(c: Call): seq<Attempt> {
    match c
    case Send(_, _, id, at, _) => if id.Some? && at.Some? then [Attempt(at.value, false)] else []
    case Edit(_, _, retry, at, _) => if at.Some? then [Attempt(at.value, retry)] else []
  }

  function Attempts(calls: seq<Call>): seq<Attempt>
    decreases |calls|
  {
    if calls == [] then [] else Attempts(calls[..|calls| - 1]) + AttemptOf(calls[|calls| - 1])
  }

  lemma OneMoreCall(calls: seq<Call>, c: Call)
    ensures Screen(calls + [c]) == Show(Screen(calls), c)
    ensures Attempts(calls + [c]) == Attempts(calls) + AttemptOf(c)
  {
  }

  predicate AllUnnamed(shown: seq<Message>) {
    forall m :: m in shown ==> m.id.None?
  }

  /** Before the placeholder no message can be edited; from then on exactly the last one can. */
  predicate OnlyLastNamed(shown: seq<Message>, sent: Option<string>) {
    if sent.None? then AllUnnamed(shown)
    else shown != [] && shown[|shown| - 1].id == sent && AllUnnamed(shown[..|shown| - 1])
  }

  predicate LastIsNamed(d: Delivery) {
    OnlyLastNamed(Screen(d.calls), d.sent)
  }

  function WithLast(shown: seq<Message>, text: string): seq<Message>
    requires shown != []
  {
    shown[..|shown| - 1] + [shown[|shown| - 1].(text := text)]
  }

  lemma RetextLast(shown: seq<Message>, id: string, text: string)
    requires OnlyLastNamed(shown, Some(id))
    ensures Retext(shown, id, text) == WithLast(shown, text) && OnlyLastNamed(WithLast(shown, text), Some(id))
  {
    forall i | 0 <= i < |shown| ensures Retext(shown, id, text)[i] == WithLast(shown, text)[i] {
      assert i < |shown| - 1 ==> shown[i] in shown[..|shown| - 1];
    }
    assert WithLast(shown, text)[..|shown| - 1] == shown[..|shown| - 1];
  }

  function EditAttempts(tick: Option<Tick>, re: Replies): seq<Attempt> {
    if tick.None? then []
    else [Attempt(tick.value.stamped, false)]
         + if re.edit == EditFailed then [Attempt(tick.value.retried, true)] else []
  }

  /** An edit of the latest text, with its retry, touches the placeholder only, which shows that text or stays. */
  lemma EditEffects(d: Delivery, id: string, text: string, tick: Option<Tick>, re: Replies)
    requires LastIsNamed(d) && d.sent == Some(id) && d.latest == text
    ensures var (e, ok) := TryEdit(d, id, text, tick, re);
            && e.sent == d.sent && e.lastEdit == d.lastEdit && e.latest == d.latest && LastIsNamed(e)
            && Attempts(e.calls) == Attempts(d.calls) + EditAttempts(tick, re)
            && Screen(e.calls) == (
                 if re.edit == Edited || (re.edit == EditFailed && re.retry == Edited)
                 then WithLast(Screen(d.calls), text) else Screen(d.calls))
            && (ok <==> re.edit != EditFailed || re.retry == Edited)
  {
    RetextLast(Screen(d.calls), id, text);
    var at := if tick.Some? then Some(tick.value.stamped) else None;
    var once := d.calls + [Edit(id, text, false, at, re.edit)];
    OneMoreCall(d.calls, Edit(id, text, false, at, re.edit));
    if re.edit == EditFailed {
      assert Screen(once) == Screen(d.calls);
      var again := if d.latest == "" then text else d.latest;
      assert again == text;
      var later := if tick.Some? then Some(tick.value.retried) else None;
      OneMoreCall(once, Edit(id, again, true, later, re.retry));
    }
  }

  datatype Partial = Partial(text: string, tick: Tick, replies: Replies)

  function AfterPartials(d: Delivery, interval: nat, reference: Option<string>, ps: seq<Partial>): Delivery
    decreases |ps|
  {
    if ps == [] then d
    else
      var p := ps[|ps| - 1];
      OnPartial(AfterPartials(d, interval, reference, ps[..|ps| - 1]), interval, p.text, reference, p.tick, p.replies).0
  }

  /** The attempts one partial text makes at the placeholder. */
  function PartialAttempts(d: Delivery, interval: nat, reference: Option<string>, p: Partial): seq<Attempt> {
    if d.sent.None? then
      if NameOf(p.replies.send, reference).Some? then [Attempt(p.tick.stamped, false)] else []
    else if TooSoon(d, interval, p.tick) then []
    else EditAttempts(Some(p.tick), p.replies)
  }

  /** An edit, or the retry after it, is applied. */
  predicate Lands(re: Replies) {
    re.edit == Edited || (re.edit == EditFailed && re.retry == Edited)
  }

  function LastEditAfter(d: Delivery, interval: nat, p: Partial): Option<nat> {
    var idle := if d.sent.None? then p.replies.send.SendFailed? else TooSoon(d, interval, p.tick);
    if idle then d.lastEdit else Some(p.tick.stamped)
  }

  /** What one partial text makes of the screen, and when. */
  predicate PartialEffect(d: Delivery, e: Delivery, interval: nat, reference: Option<string>, p: Partial)
    requires LastIsNamed(d)
  {
    && LastIsNamed(e)
    && Attempts(e.calls) == Attempts(d.calls) + PartialAttempts(d, interval, reference, p)
    && e.lastEdit == LastEditAfter(d, interval, p)
    && e.sent == (if d.sent.Some? then d.sent else NameOf(p.replies.send, reference))
    && (d.sent.Some? ==>
          Screen(e.calls) == if !TooSoon(d, interval, p.tick) && Lands(p.replies)
                             then WithLast(Screen(d.calls), p.text) else Screen(d.calls))
    && (d.sent.None? ==>
          Screen(e.calls) == Screen(d.calls) + if p.replies.send.Sent? then [Message(e.sent, p.text)] else [])
  }

  lemma PartialEffects(d: Delivery, interval: nat, reference: Option<string>, p: Partial)
    requires LastIsNamed(d)
    ensures PartialEffect(d, OnPartial(d, interval, p.text, reference, p.tick, p.replies).0, interval, reference, p)
  {
    if d.sent.None? {
      var id := NameOf(p.replies.send, reference);
      var at := if p.replies.send.Sent? then Some(p.tick.stamped) else None;
      OneMoreCall(d.calls, Send(p.text, true, id, at, p.replies.send));
    } else {
      EditEffects(d.(latest := p.text, lastEdit := Some(p.tick.stamped)), d.sent.value, p.text, Some(p.tick), p.replies);
    }
  }

  /** The partial text was posted, and the channel or the caller has a name for the message. */
  predicate Named(reference: Option<string>, p: Partial) {
    p.replies.send.Sent? && (p.replies.send.id.Some? || reference.Some?)
  }

  /** Some partial text was posted under a name, and so became the placeholder. */
  predicate HasPlaceholder(reference: Option<string>, ps: seq<Partial>) {
    exists i :: 0 <= i < |ps| && Named(reference, ps[i])
  }

  /** The partial texts posted without a name, before any placeholder; no edit ever reaches them. */
  function Strays(reference: Option<string>, ps: seq<Partial>): seq<string>
    decreases |ps|
  {
    if ps == [] then []
    else
      var m := |ps| - 1;
      Strays(reference, ps[..m])
      + if !HasPlaceholder(reference, ps[..m]) && ps[m].replies.send.Sent? && !Named(reference, ps[m])
        then [ps[m].text] else []
  }

  lemma HasPlaceholderStep(reference: Option<string>, ps: seq<Partial>)
    requires ps != []
    ensures var m := |ps| - 1;
            HasPlaceholder(reference, ps) <==> HasPlaceholder(reference, ps[..m]) || Named(reference, ps[m])
  {
    var m := |ps| - 1;
    if HasPlaceholder(reference, ps[..m]) {
      var i :| 0 <= i < m && Named(reference, ps[..m][i]);
      assert Named(reference, ps[i]);
    }
    if HasPlaceholder(reference, ps) && !Named(reference, ps[m]) {
      var i :| 0 <= i < |ps| && Named(reference, ps[i]);
      assert ps[..m][i] == ps[i];
    }
  }

  lemma TextsOfAppend(a: seq<Message>, b: seq<Message>)
    ensures TextsOf(a + b) == TextsOf(a) + TextsOf(b)
  {
  }

  /** The screen, as far as no edit reaches it. */
  predicate StraysFirst(shown: seq<Message>, strays: seq<string>, named: bool) {
    && |shown| == |strays| + (if named then 1 else 0)
    && TextsOf(shown[..|strays|]) == strays
  }

  lemma StraysStay(shown: seq<Message>, strays: seq<string>, text: string)
    requires StraysFirst(shown, strays, true)
    ensures StraysFirst(WithLast(shown, text), strays, true)
  {
    assert WithLast(shown, text)[..|strays|] == shown[..|strays|];
  }

  lemma StrayAppends(shown: seq<Message>, strays: seq<string>, m: Message, named: bool)
    requires StraysFirst(shown, strays, false)
    ensures StraysFirst(shown + [m], if named then strays else strays + [m.text], named)
  {
    assert shown[..|strays|] == shown && (shown + [m])[..|strays|] == shown;
    assert (shown + [m])[..|strays| + 1] == shown + [m];
    TextsOfAppend(shown, [m]);
  }

  /** The screen holds the strays, in order, and after them the placeholder if there is one. */
  predicate OnScreen(d: Delivery, reference: Option<string>, ps: seq<Partial>) {
    && LastIsNamed(d) && (d.sent.Some? <==> HasPlaceholder(reference, ps))
    && StraysFirst(Screen(d.calls), Strays(reference, ps), d.sent.Some?)
  }

  /** An edit, or none, keeps the arrangement; so does a send that fails. */
  lemma OnScreenEdited(d: Delivery, e: Delivery, reference: Option<string>, ps: seq<Partial>, text: string)
    requires ps != [] && OnScreen(d, reference, ps[..|ps| - 1]) && LastIsNamed(e) && e.sent == d.sent
    requires Screen(e.calls) == Screen(d.calls)
             || (d.sent.Some? && Screen(e.calls) == WithLast(Screen(d.calls), text))
    requires d.sent.Some? || !ps[|ps| - 1].replies.send.Sent?
    ensures OnScreen(e, reference, ps)
  {
    HasPlaceholderStep(reference, ps);
    var strays := Strays(reference, ps[..|ps| - 1]);
    assert Strays(reference, ps) == strays;
    if d.sent.Some? {
      StraysStay(Screen(d.calls), strays, text);
    }
  }

  /** A message sent becomes the placeholder if it has a name, and else one more stray. */
  lemma OnScreenSent(d: Delivery, e: Delivery, reference: Option<string>, ps: seq<Partial>)
    requires ps != [] && OnScreen(d, reference, ps[..|ps| - 1]) && LastIsNamed(e) && d.sent.None?
    requires ps[|ps| - 1].replies.send.Sent? && (e.sent.Some? <==> Named(reference, ps[|ps| - 1]))
    requires Screen(e.calls) == Screen(d.calls) + [Message(e.sent, ps[|ps| - 1].text)]
    ensures OnScreen(e, reference, ps)
  {
    HasPlaceholderStep(reference, ps);
    var strays := Strays(reference, ps[..|ps| - 1]);
    assert Strays(reference, ps) == if e.sent.Some? then strays else strays + [ps[|ps| - 1].text];
    StrayAppends(Screen(d.calls), strays, Message(e.sent, ps[|ps| - 1].text), e.sent.Some?);
  }

  lemma OnScreenStep(d: Delivery, e: Delivery, interval: nat, reference: Option<string>, ps: seq<Partial>)
    requires ps != [] && OnScreen(d, reference, ps[..|ps| - 1])
    requires PartialEffect(d, e, interval, reference, ps[|ps| - 1])
    ensures OnScreen(e, reference, ps)
  {
    var p := ps[|ps| - 1];
    if d.sent.None? && p.replies.send.Sent? {
      OnScreenSent(d, e, reference, ps);
    } else {
      OnScreenEdited(d, e, reference, ps, p.text);
    }
  }

  /** So it is after any partial texts, answered in any way. */
  lemma {:induction false} ScreenWhileStreaming(interval: nat, reference: Option<string>, ps: seq<Partial>)
    ensures OnScreen(AfterPartials(FRESH, interval, reference, ps), reference, ps)
    decreases |ps|
  {
    if ps != [] {
      var m := |ps| - 1;
      ScreenWhileStreaming(interval, reference, ps[..m]);
      var d, p := AfterPartials(FRESH, interval, reference, ps[..m]), ps[m];
      PartialEffects(d, interval, reference, p);
      OnScreenStep(d, OnPartial(d, interval, p.text, reference, p.tick, p.replies).0, interval, reference, ps);
    }
  }

  // ── The calls themselves ────────────────────────────────────────

  /** The calls that one partial text makes: the placeholder, marked as partial, or edits of it, each with its time. */
  lemma PartialCalls(d: Delivery, interval: nat, reference: Option<string>, p: Partial)
    ensures var e := OnPartial(d, interval, p.text, reference, p.tick, p.replies).0;
            var made := e.calls[|d.calls|..];
            && d.calls <= e.calls && |made| <= 2 && e.latest == p.text
            && (d.sent.None? ==>
                  && |made| == 1 && made[0].Send? && made[0].partial && made[0].text == p.text
                  && made[0].sendReply == p.replies.send
                  && (p.replies.send.Sent? ==> made[0].at == Some(p.tick.stamped)))
            && (d.sent.Some? ==>
                  && (made == [] <==> d.lastEdit.Some? && p.tick.checked < d.lastEdit.value + interval)
                  && (|made| == 2 <==> made != [] && p.replies.edit == EditFailed)
                  && forall i :: 0 <= i < |made| ==>
                       made[i] == Edit(d.sent.value, p.text, i == 1,
                                       Some(if i == 1 then p.tick.retried else p.tick.stamped),
                                       if i == 1 then p.replies.retry else p.replies.edit))
  {
  }

  /** The calls that a completion makes: edits of the placeholder, or else one message that is not partial. */
  lemma CompletionCalls(d: Delivery, text: string, re: Replies)
    ensures var e := OnComplete(d, text, re).0;
            var made := e.calls[|d.calls|..];
            && d.calls <= e.calls && e.latest == text
            && (d.sent.None? ==> made == [Send(text, false, if re.send.Sent? then re.send.id else None, None, re.send)])
            && (d.sent.Some? ==>
                  && |made| == (if re.edit == EditFailed then 2 else 1)
                  && forall i :: 0 <= i < |made| ==>
                       made[i] == Edit(d.sent.value, text, i == 1, None, if i == 1 then re.retry else re.edit))
  {
  }

  // ── What the placeholder shows ──────────────────────────────────

  /** The placeholder, posted by partial text `k`, is written to for `i`: the last time was long enough ago. */
  predicate Attempted(interval: nat, ps: seq<Partial>, k: nat, i: nat)
    requires k <= i < |ps|
    decreases i
  {
    i == k || forall j :: k <= j < i && Attempted(interval, ps, k, j) ==>
                ps[j].tick.stamped + interval <= ps[i].tick.checked
  }

  predicate Reaches(interval: nat, ps: seq<Partial>, k: nat, i: nat)
    requires k <= i < |ps|
  {
    i == k || (Attempted(interval, ps, k, i) && Lands(ps[i].replies))
  }

  /** Partial text `j` is the last that reached the placeholder. */
  predicate LastToReach(interval: nat, ps: seq<Partial>, k: nat, j: nat)
    requires k <= j < |ps|
  {
    Reaches(interval, ps, k, j) && forall i :: j < i < |ps| ==> !Reaches(interval, ps, k, i)
  }

  /** The throttle compares with the last attempt. */
  predicate LastAttempt(interval: nat, ps: seq<Partial>, k: nat, lastEdit: Option<nat>) {
    && lastEdit.Some?
    && (exists a :: k <= a < |ps| && Attempted(interval, ps, k, a) && ps[a].tick.stamped == lastEdit.value)
    && (forall i :: k <= i < |ps| && Attempted(interval, ps, k, i) ==> ps[i].tick.stamped <= lastEdit.value)
  }

  lemma {:induction false} AttemptedPrefix(interval: nat, ps: seq<Partial>, k: nat, i: nat)
    requires ps != [] && k <= i < |ps| - 1
    ensures Attempted(interval, ps, k, i) <==> Attempted(interval, ps[..|ps| - 1], k, i)
    decreases i
  {
    var prior := ps[..|ps| - 1];
    forall j | k <= j < i ensures Attempted(interval, ps, k, j) <==> Attempted(interval, prior, k, j) {
      AttemptedPrefix(interval, ps, k, j);
    }
  }

  /** A partial text is attempted exactly when the throttle lets it through. */
  lemma AttemptedIff(interval: nat, ps: seq<Partial>, k: nat, lastEdit: Option<nat>)
    requires ps != [] && k < |ps| - 1 && LastAttempt(interval, ps[..|ps| - 1], k, lastEdit)
    requires ps[|ps| - 1].tick.checked <= ps[|ps| - 1].tick.stamped
    ensures var m := |ps| - 1;
            var late := lastEdit.value + interval <= ps[m].tick.checked;
            && (Attempted(interval, ps, k, m) <==> late)
            && LastAttempt(interval, ps, k, if late then Some(ps[m].tick.stamped) else lastEdit)
  {
    var m := |ps| - 1;
    var prior := ps[..m];
    forall i | k <= i < m ensures Attempted(interval, ps, k, i) <==> Attempted(interval, prior, k, i) {
      AttemptedPrefix(interval, ps, k, i);
    }
    var a :| k <= a < m && Attempted(interval, prior, k, a) && prior[a].tick.stamped == lastEdit.value;
    assert Attempted(interval, ps, k, a);
    assert forall i :: k <= i < m && Attempted(interval, ps, k, i) ==> prior[i].tick.stamped <= lastEdit.value;
  }

  /** One more partial text: the last to reach the placeholder is it, or still the one before. */
  lemma LastToReachStep(interval: nat, ps: seq<Partial>, k: nat, j: nat)
    requires k <= j < |ps| - 1 && LastToReach(interval, ps[..|ps| - 1], k, j)
    ensures LastToReach(interval, ps, k, if Reaches(interval, ps, k, |ps| - 1) then |ps| - 1 else j)
  {
    forall i | k <= i < |ps| - 1
      ensures Reaches(interval, ps, k, i) <==> Reaches(interval, ps[..|ps| - 1], k, i)
    {
      AttemptedPrefix(interval, ps, k, i);
    }
  }

  /** The placeholder, posted by partial text `k`, shows partial text `j`. */
  predicate Shows(d: Delivery, interval: nat, reference: Option<string>, ps: seq<Partial>, k: nat, j: nat)
    requires k <= j < |ps|
  {
    var shown := Screen(d.calls);
    && ps[k].replies.send.Sent?
    && d.sent == (if ps[k].replies.send.id.Some? then ps[k].replies.send.id else reference)
    && LastAttempt(interval, ps, k, d.lastEdit)
    && shown != [] && shown[|shown| - 1] == Message(d.sent, ps[j].text)
  }

  lemma PlaceholderBefore(reference: Option<string>, ps: seq<Partial>, k: nat)
    requires k < |ps| && Named(reference, ps[k]) && forall i :: 0 <= i < k ==> !Named(reference, ps[i])
    ensures HasPlaceholder(reference, ps[..|ps| - 1]) <==> k < |ps| - 1
  {
    if k < |ps| - 1 {
      assert Named(reference, ps[..|ps| - 1][k]);
    }
  }

  lemma PlaceholderPosted(d: Delivery, e: Delivery, interval: nat, reference: Option<string>, ps: seq<Partial>, k: nat)
    requires LastIsNamed(d) && d.sent.None? && k + 1 == |ps| && Named(reference, ps[k])
    requires PartialEffect(d, e, interval, reference, ps[k])
    ensures Shows(e, interval, reference, ps, k, k)
  {
    assert Attempted(interval, ps, k, k);
  }

  lemma StillShows(
    d: Delivery, e: Delivery, interval: nat, reference: Option<string>, ps: seq<Partial>, k: nat, j: nat)
    requires k <= j < |ps| - 1 && Shows(d, interval, reference, ps[..|ps| - 1], k, j) && LastIsNamed(d) && d.sent.Some?
    requires PartialEffect(d, e, interval, reference, ps[|ps| - 1])
    requires ps[|ps| - 1].tick.checked <= ps[|ps| - 1].tick.stamped
    ensures Shows(e, interval, reference, ps, k, if Reaches(interval, ps, k, |ps| - 1) then |ps| - 1 else j)
  {
    AttemptedIff(interval, ps, k, d.lastEdit);
  }

  /** One more partial text after the placeholder. */
  lemma NextShows(
    d: Delivery, e: Delivery, interval: nat, reference: Option<string>, ps: seq<Partial>, k: nat, j: nat) returns (j': nat)
    requires k <= j < |ps| - 1 && Shows(d, interval, reference, ps[..|ps| - 1], k, j) && LastIsNamed(d) && d.sent.Some?
    requires LastToReach(interval, ps[..|ps| - 1], k, j) && PartialEffect(d, e, interval, reference, ps[|ps| - 1])
    requires ps[|ps| - 1].tick.checked <= ps[|ps| - 1].tick.stamped
    ensures k <= j' < |ps| && LastToReach(interval, ps, k, j') && Shows(e, interval, reference, ps, k, j')
  {
    StillShows(d, e, interval, reference, ps, k, j);
    LastToReachStep(interval, ps, k, j);
    j' := if Reaches(interval, ps, k, |ps| - 1) then |ps| - 1 else j;
  }

  /**
   * From the placeholder on, whatever the channel answers: it bears the channel's name for it, or
   * else the caller's, and shows exactly the last partial text that reached it, that is, came late
   * enough after the attempt before and was edited in at once or by the retry.
   */
  lemma {:induction false} PlaceholderShowsLatest(interval: nat, reference: Option<string>, ps: seq<Partial>, k: nat)
    returns (j: nat)
    requires k < |ps| && Named(reference, ps[k]) && forall i :: 0 <= i < k ==> !Named(reference, ps[i])
    requires forall i :: 0 <= i < |ps| ==> ps[i].tick.checked <= ps[i].tick.stamped
    ensures k <= j < |ps| && LastToReach(interval, ps, k, j)
    ensures Shows(AfterPartials(FRESH, interval, reference, ps), interval, reference, ps, k, j)
    decreases |ps|
  {
    var prior, p := ps[..|ps| - 1], ps[|ps| - 1];
    var d := AfterPartials(FRESH, interval, reference, prior);
    var e := OnPartial(d, interval, p.text, reference, p.tick, p.replies).0;
    assert AfterPartials(FRESH, interval, reference, ps) == e;
    ScreenWhileStreaming(interval, reference, prior);
    PlaceholderBefore(reference, ps, k);
    PartialEffects(d, interval, reference, p);
    if k < |prior| {
      j := PlaceholderShowsLatest(interval, reference, prior, k);
      j := NextShows(d, e, interval, reference, ps, k, j);
    } else {
      j := k;
      PlaceholderPosted(d, e, interval, reference, ps, k);
    }
  }

  /** A refusal as "not modified" is honest if the placeholder already shows the text. */
  predicate Honest(d: Delivery, text: string, re: Replies) {
    d.sent.Some? && re.edit == NotModified ==>
      Screen(d.calls) != [] && Screen(d.calls)[|Screen(d.calls)| - 1].text == text
  }

  /** A completion that succeeds makes the placeholder show its text, or posts it as a new message. */
  lemma CompletionEffects(d: Delivery, text: string, re: Replies)
    requires LastIsNamed(d) && Honest(d, text, re) && OnComplete(d, text, re).1
    ensures var done := OnComplete(d, text, re).0;
            && done.sent == d.sent
            && (d.sent.Some? ==> LastIsNamed(done) && Screen(done.calls) == WithLast(Screen(d.calls), text))
            && (d.sent.None? ==> Screen(done.calls) == Screen(d.calls) + [Message(re.send.id, text)])
  {
    if d.sent.None? {
      OneMoreCall(d.calls, Send(text, false, NameOf(re.send, None), None, re.send));
    } else {
      EditEffects(d.(latest := text), d.sent.value, text, None, re);
      var shown := Screen(d.calls);
      assert re.edit == NotModified ==> WithLast(shown, text) == shown;
    }
  }

  /** What is on screen once a text has been completed. */
  predicate CompletedScreen(before: seq<Message>, strays: seq<string>, shown: seq<Message>, text: string) {
    var n := |strays|;
    && |shown| == n + 1 && shown[n].text == text && TextsOf(shown) == strays + [text]
    && n <= |before| && shown[..n] == before[..n]
  }

  lemma PostedAfterStrays(before: seq<Message>, strays: seq<string>, m: Message)
    requires StraysFirst(before, strays, false)
    ensures CompletedScreen(before, strays, before + [m], m.text)
  {
    assert before[..|strays|] == before;
    TextsOfAppend(before, [m]);
  }

  lemma CompletedAfterStrays(before: seq<Message>, strays: seq<string>, text: string)
    requires StraysFirst(before, strays, true)
    ensures CompletedScreen(before, strays, WithLast(before, text), text)
  {
    TextsOfAppend(before[..|strays|], [before[|strays|].(text := text)]);
  }

  /**
   * Any partials, delivered however the channel answers them, then one completion that succeeds:
   * the last message shows the completed text, before it stand the strays, and so it is the only
   * message exactly when no partial text was posted without a name.
   */
  lemma OneMessageShowsCompletion(
    interval: nat, reference: Option<string>, ps: seq<Partial>, text: string, re: Replies)
    requires var d := AfterPartials(FRESH, interval, reference, ps);
             Honest(d, text, re) && OnComplete(d, text, re).1
    ensures var d := AfterPartials(FRESH, interval, reference, ps);
            CompletedScreen(Screen(d.calls), Strays(reference, ps), Screen(OnComplete(d, text, re).0.calls), text)
  {
    var d := AfterPartials(FRESH, interval, reference, ps);
    ScreenWhileStreaming(interval, reference, ps);
    CompletionEffects(d, text, re);
    if d.sent.Some? {
      CompletedAfterStrays(Screen(d.calls), Strays(reference, ps), text);
    } else {
      PostedAfterStrays(Screen(d.calls), Strays(reference, ps), Message(re.send.id, text));
    }
  }

  // ── Throttling ──────────────────────────────────────────────────

  predicate Apart(s: seq<Attempt>, i: nat, j: nat, interval: nat)
    requires i < |s| && j < |s|
  {
    s[i].time + interval <= s[j].time
  }

  /** Edits other than retries keep their distance; a retry keeps it from the edit just before it. */
  predicate Throttled(s: seq<Attempt>, interval: nat) {
    && (forall i, j :: 0 <= i < j < |s| && !s[i].retry && !s[j].retry ==> Apart(s, i, j, interval))
    && (forall j :: 0 <= j < |s| && s[j].retry ==> j > 0 && !s[j - 1].retry && Apart(s, j - 1, j, interval))
  }

  predicate AllApart(s: seq<Attempt>, interval: nat) {
    forall i, j :: 0 <= i < j < |s| ==> Apart(s, i, j, interval)
  }

  /** The time the throttle compares with is no earlier than any edit that is not a retry. */
  predicate InStep(s: seq<Attempt>, lastEdit: Option<nat>, interval: nat) {
    && Throttled(s, interval)
    && forall i :: 0 <= i < |s| && !s[i].retry ==> lastEdit.Some? && s[i].time <= lastEdit.value
  }

  predicate ThrottleState(d: Delivery, interval: nat) {
    InStep(Attempts(d.calls), d.lastEdit, interval) && (d.sent.None? ==> Attempts(d.calls) == [])
  }

  /** Clock reads happen in order, and a retry waits for the interval to pass. */
  predicate Timely(t: Tick, interval: nat) {
    t.checked <= t.stamped && t.stamped + interval <= t.retried
  }

  lemma InStepAppend(s: seq<Attempt>, lastEdit: Option<nat>, tick: Tick, re: Replies, interval: nat)
    requires InStep(s, lastEdit, interval) && Timely(tick, interval)
    requires lastEdit.Some? ==> lastEdit.value + interval <= tick.checked
    ensures InStep(s + EditAttempts(Some(tick), re), Some(tick.stamped), interval)
  {
  }

  /** Any delivery `e` whose attempts, recorded time and name are as after one partial text. */
  lemma AttemptsStayThrottled(d: Delivery, e: Delivery, interval: nat, reference: Option<string>, p: Partial)
    requires ThrottleState(d, interval) && Timely(p.tick, interval)
    requires Attempts(e.calls) == Attempts(d.calls) + PartialAttempts(d, interval, reference, p)
    requires e.lastEdit == LastEditAfter(d, interval, p)
    requires e.sent == (if d.sent.Some? then d.sent else NameOf(p.replies.send, reference))
    ensures ThrottleState(e, interval)
  {
    var s := Attempts(d.calls);
    if d.sent.None? {
      assert s + PartialAttempts(d, interval, reference, p) == PartialAttempts(d, interval, reference, p);
    } else if TooSoon(d, interval, p.tick) {
      assert s + [] == s;
    } else {
      InStepAppend(s, d.lastEdit, p.tick, p.replies, interval);
    }
  }

  lemma PartialStepThrottled(d: Delivery, interval: nat, reference: Option<string>, p: Partial)
    requires ThrottleState(d, interval) && LastIsNamed(d) && Timely(p.tick, interval)
    ensures ThrottleState(OnPartial(d, interval, p.text, reference, p.tick, p.replies).0, interval)
  {
    var e := OnPartial(d, interval, p.text, reference, p.tick, p.replies).0;
    PartialEffects(d, interval, reference, p);
    AttemptsStayThrottled(d, e, interval, reference, p);
  }

  lemma {:induction false} PartialsThrottled(interval: nat, reference: Option<string>, ps: seq<Partial>)
    requires forall i :: 0 <= i < |ps| ==> Timely(ps[i].tick, interval)
    ensures ThrottleState(AfterPartials(FRESH, interval, reference, ps), interval)
    decreases |ps|
  {
    if ps != [] {
      var m := |ps| - 1;
      PartialsThrottled(interval, reference, ps[..m]);
      ScreenWhileStreaming(interval, reference, ps[..m]);
      PartialStepThrottled(AfterPartials(FRESH, interval, reference, ps[..m]), interval, reference, ps[m]);
    }
  }

  /** Attempt `j` keeps its distance from the one before it. */
  predicate ApartFromLast(s: seq<Attempt>, j: nat, interval: nat)
    requires 0 < j < |s|
  {
    Apart(s, j - 1, j, interval)
  }

  predicate FollowsRetry(s: seq<Attempt>, j: nat) {
    0 < j < |s| && s[j - 1].retry
  }

  /** Attempts that follow one another at a distance are all apart. */
  lemma {:induction false} NeighboursApart(s: seq<Attempt>, interval: nat, i: nat, j: nat)
    requires i < j < |s| && forall k :: 0 < k < |s| ==> ApartFromLast(s, k, interval)
    ensures Apart(s, i, j, interval)
    decreases j
  {
    assert ApartFromLast(s, j, interval);
    if i < j - 1 {
      NeighboursApart(s, interval, i, j - 1);
    }
  }

  lemma ThrottledApartIff(s: seq<Attempt>, interval: nat)
    requires Throttled(s, interval)
    ensures AllApart(s, interval) <==> forall j :: FollowsRetry(s, j) ==> ApartFromLast(s, j, interval)
  {
    if forall j :: FollowsRetry(s, j) ==> ApartFromLast(s, j, interval) {
      forall k | 0 < k < |s| ensures ApartFromLast(s, k, interval) {
        assert FollowsRetry(s, k) || Apart(s, k - 1, k, interval);
      }
      forall i, j | 0 <= i < j < |s| ensures Apart(s, i, j, interval) {
        NeighboursApart(s, interval, i, j);
      }
    }
  }

  /**
   * Whatever the channel answers: the placeholder and its edits are at least the interval apart, and
   * so is each retry from the edit it repeats. All attempts are apart exactly when none follows a
   * retry too soon, for the throttle does not know of retries.
   */
  lemma PartialEditsSpaced(interval: nat, reference: Option<string>, ps: seq<Partial>)
    requires forall i :: 0 <= i < |ps| ==> Timely(ps[i].tick, interval)
    ensures var s := Attempts(AfterPartials(FRESH, interval, reference, ps).calls);
            && Throttled(s, interval)
            && (AllApart(s, interval) <==> forall j :: FollowsRetry(s, j) ==> ApartFromLast(s, j, interval))
  {
    PartialsThrottled(interval, reference, ps);
    ThrottledApartIff(Attempts(AfterPartials(FRESH, interval, reference, ps).calls), interval);
  }

  /** After the partial texts `ps` the placeholder is named, last edited at `lastEdit`, and attempted as in `s`. */
  predicate Reached(interval: nat, ps: seq<Partial>, lastEdit: nat, s: seq<Attempt>) {
    var d := AfterPartials(FRESH, interval, None, ps);
    LastIsNamed(d) && d.sent == Some("1") && d.lastEdit == Some(lastEdit) && Attempts(d.calls) == s
  }

  lemma OneMorePartial(interval: nat, ps: seq<Partial>, p: Partial, lastEdit: nat, s: seq<Attempt>)
    requires Reached(interval, ps, lastEdit, s) && lastEdit + interval <= p.tick.checked
    ensures Reached(interval, ps + [p], p.tick.stamped, s + EditAttempts(Some(p.tick), p.replies))
  {
    assert (ps + [p])[..|ps|] == ps;
    PartialEffects(AfterPartials(FRESH, interval, None, ps), interval, None, p);
  }

  lemma FirstPartial(interval: nat, p: Partial)
    requires p.replies.send == Sent(Some("1"))
    ensures Reached(interval, [p], p.tick.stamped, [Attempt(p.tick.stamped, false)])
  {
    PartialEffects(FRESH, interval, None, p);
    FirstAttempt(OnPartial(FRESH, interval, p.text, None, p.tick, p.replies).0, interval, p);
    OnePartial(interval, p);
  }

  lemma FirstAttempt(e: Delivery, interval: nat, p: Partial)
    requires p.replies.send == Sent(Some("1")) && PartialEffect(FRESH, e, interval, None, p)
    ensures LastIsNamed(e) && e.sent == Some("1") && e.lastEdit == Some(p.tick.stamped)
    ensures Attempts(e.calls) == [Attempt(p.tick.stamped, false)]
  {
    assert Attempts(FRESH.calls) == [];
  }

  lemma OnePartial(interval: nat, p: Partial)
    ensures AfterPartials(FRESH, interval, None, [p]) == OnPartial(FRESH, interval, p.text, None, p.tick, p.replies).0
  {
    assert [p][..0] == [];
  }

  lemma FourAttempts(p: Tick, q: Tick, r: Tick)
    ensures [Attempt(p.stamped, false)] + ([Attempt(q.stamped, false)] + [Attempt(q.retried, true)])
            + ([Attempt(r.stamped, false)] + [])
            == [Attempt(p.stamped, false), Attempt(q.stamped, false), Attempt(q.retried, true), Attempt(r.stamped, false)]
  {
  }

  /**
   * A placeholder, an edit that fails and is retried, and the next edit: the throttle asks only that
   * the edits be apart, so the last one may come as soon as the retry is sent.
   */
  lemma EditAfterRetry(interval: nat, p: Partial, q: Partial, r: Partial)
    requires p.replies.send == Sent(Some("1")) && p.tick.stamped + interval <= q.tick.checked
    requires q.replies.edit == EditFailed && q.tick.stamped + interval <= r.tick.checked
    requires r.replies.edit != EditFailed
    ensures Reached(
              interval, [p] + [q] + [r], r.tick.stamped,
              [Attempt(p.tick.stamped, false), Attempt(q.tick.stamped, false), Attempt(q.tick.retried, true),
               Attempt(r.tick.stamped, false)])
  {
    var first, last := [Attempt(p.tick.stamped, false)], [Attempt(r.tick.stamped, false)];
    var failed := EditAttempts(Some(q.tick), q.replies);
    FirstPartial(interval, p);
    OneMorePartial(interval, [p], q, p.tick.stamped, first);
    OneMorePartial(interval, [p] + [q], r, q.tick.stamped, first + failed);
    FourAttempts(p.tick, q.tick, r.tick);
  }

  /** An edit that fails, its retry after the interval, and the next partial text at the same moment. */
  function RetryRun(interval: nat): seq<Partial> {
    var works, fails := Replies(Sent(Some("1")), Edited, Edited), Replies(Sent(Some("1")), EditFailed, Edited);
    [Partial("a", Tick(0, 0, interval), works)]
    + [Partial("ab", Tick(interval, interval, 2 * interval), fails)]
    + [Partial("abc", Tick(2 * interval, 2 * interval, 3 * interval), works)]
  }

  /** In that run the last edit and the retry fall together. */
  lemma RetriesCanCrowd(interval: nat)
    requires interval > 0
    ensures forall i :: 0 <= i < |RetryRun(interval)| ==> Timely(RetryRun(interval)[i].tick, interval)
    ensures !AllApart(Attempts(AfterPartials(FRESH, interval, None, RetryRun(interval)).calls), interval)
  {
    var run := RetryRun(interval);
    EditAfterRetry(interval, run[0], run[1], run[2]);
    assert !Apart(Attempts(AfterPartials(FRESH, interval, None, run).calls), 2, 3, interval);
  }

  // ── Several chunks ──────────────────────────────────────────────

  /** Completing each chunk in turn, stopping at the first failure. */
  function Deliver(d: Delivery, chunks: seq<string>, re: seq<Replies>): (Delivery, bool)
    requires |re| >= |chunks|
    decreases |chunks|
  {
    if chunks == [] then (d, true)
    else
      var first := OnComplete(d, chunks[0], re[0]);
      if first.1 then Deliver(first.0, chunks[1..], re[1..]) else first
  }

  /** Every refusal as "not modified" along the way is honest. */
  predicate AllHonest(d: Delivery, chunks: seq<string>, re: seq<Replies>)
    requires |re| >= |chunks|
    decreases |chunks|
  {
    chunks != [] ==>
      Honest(d, chunks[0], re[0]) && AllHonest(OnComplete(d, chunks[0], re[0]).0, chunks[1..], re[1..])
  }

  /** The chunks posted as messages of their own, up to the first send that fails. */
  function Posted(chunks: seq<string>, re: seq<Replies>): seq<Message>
    requires |re| >= |chunks|
  {
    if chunks == [] || re[0].send.SendFailed? then []
    else [Message(re[0].send.id, chunks[0])] + Posted(chunks[1..], re[1..])
  }

  lemma {:induction false} PostedPrefix(chunks: seq<string>, re: seq<Replies>)
    requires |re| >= |chunks|
    ensures var k := |Posted(chunks, re)|;
            && k <= |chunks|
            && (forall i :: 0 <= i < k ==> re[i].send.Sent? && Posted(chunks, re)[i] == Message(re[i].send.id, chunks[i]))
            && (k < |chunks| ==> re[k].send.SendFailed?)
    decreases |chunks|
  {
    if chunks != [] && re[0].send.Sent? {
      PostedPrefix(chunks[1..], re[1..]);
    }
  }

  lemma PostCompletion(d: Delivery, text: string, re: Replies)
    requires d.sent.None?
    ensures var (e, ok) := OnComplete(d, text, re);
            && e.sent.None? && (ok <==> re.send.Sent?)
            && Screen(e.calls) == Screen(d.calls) + if ok then [Message(re.send.id, text)] else []
  {
    OneMoreCall(d.calls, Send(text, false, NameOf(re.send, None), None, re.send));
  }

  lemma {:induction false} DeliverPosts(d: Delivery, chunks: seq<string>, re: seq<Replies>)
    requires |re| >= |chunks| && d.sent.None?
    ensures var (done, ok) := Deliver(d, chunks, re);
            && (ok <==> |Posted(chunks, re)| == |chunks|)
            && Screen(done.calls) == Screen(d.calls) + Posted(chunks, re)
    decreases |chunks|
  {
    if chunks != [] {
      PostCompletion(d, chunks[0], re[0]);
      if re[0].send.Sent? {
        DeliverPosts(OnComplete(d, chunks[0], re[0]).0, chunks[1..], re[1..]);
      }
    }
  }

  /** The first chunks stand as messages of their own after `before`: all of them, or those before the first failure. */
  predicate PostedAfter(before: seq<Message>, shown: seq<Message>, ok: bool, chunks: seq<string>, re: seq<Replies>)
    requires |re| >= |chunks|
  {
    var n, k := |before|, |shown| - |before|;
    && before <= shown && k <= |chunks| && (ok <==> k == |chunks|)
    && (forall i :: 0 <= i < k ==> re[i].send.Sent? && shown[n + i] == Message(re[i].send.id, chunks[i]))
    && (!ok ==> re[k].send.SendFailed?)
  }

  lemma PostedIsAfter(before: seq<Message>, shown: seq<Message>, ok: bool, chunks: seq<string>, re: seq<Replies>)
    requires |re| >= |chunks| && shown == before + Posted(chunks, re) && (ok <==> |Posted(chunks, re)| == |chunks|)
    ensures PostedAfter(before, shown, ok, chunks, re)
  {
    PostedPrefix(chunks, re);
    var posted := Posted(chunks, re);
    assert forall i :: 0 <= i < |posted| ==> shown[|before| + i] == posted[i];
  }

  /** Without a placeholder every chunk is posted as its own message, in order, up to the first failure. */
  lemma FreshDeliveryPostsChunks(d: Delivery, chunks: seq<string>, re: seq<Replies>)
    requires |re| >= |chunks| && d.sent.None?
    ensures var (done, ok) := Deliver(d, chunks, re);
            PostedAfter(Screen(d.calls), Screen(done.calls), ok, chunks, re)
  {
    var (done, ok) := Deliver(d, chunks, re);
    DeliverPosts(d, chunks, re);
    PostedIsAfter(Screen(d.calls), Screen(done.calls), ok, chunks, re);
  }

  /** After a placeholder, successive chunks all edit the same message, so only the last one stays visible. */
  lemma {:induction false} PlaceholderShowsLastChunk(d: Delivery, chunks: seq<string>, re: seq<Replies>)
    requires |re| >= |chunks| > 0 && d.sent.Some? && LastIsNamed(d)
    requires AllHonest(d, chunks, re) && Deliver(d, chunks, re).1
    ensures var done := Deliver(d, chunks, re).0;
            Screen(done.calls) == WithLast(Screen(d.calls), chunks[|chunks| - 1])
    decreases |chunks|
  {
    CompletionEffects(d, chunks[0], re[0]);
    if |chunks| > 1 {
      PlaceholderShowsLastChunk(OnComplete(d, chunks[0], re[0]).0, chunks[1..], re[1..]);
    }
  }
}

/** The streaming strategy object; the batch strategy is the same object without partials. */
module Streaming {
  import opened Wrappers
  import opened StreamingState

  const EDIT_INTERVAL: nat := 1_000_000_000

  class StreamingDelivery {
    var sentMessageId: Option<string>
    var lastEdit: Option<nat>
    var latestText: string
    ghost var calls: seq<Call>

    ghost function View(): Delivery
      reads this
    {
      Delivery(sentMessageId, lastEdit, latestText, calls)
    }

    constructor ()
      ensures View() == FRESH
    {
      sentMessageId, lastEdit, latestText, calls := None, None, "", [];
    }

    method TryEdit(text: string, messageId: string, ghost tick: Option<Tick>, re: Replies) returns (ok: bool)
      modifies this`calls
      ensures (View(), ok) == StreamingState.TryEdit(old(View()), messageId, text, tick, re)
      ensures re.edit == EditFailed ==>
                calls[|calls| - 1].text == if latestText == "" then text else latestText
    {
      calls := calls + [Edit(messageId, text, false, if tick.Some? then Some(tick.value.stamped) else None, re.edit)];
      if re.edit != EditFailed {
        return true;
      }
      var retryText := if latestText == "" then text else latestText;
      calls := calls + [Edit(messageId, retryText, true, if tick.Some? then Some(tick.value.retried) else None, re.retry)];
      ok := re.retry == Edited;
    }

    method OnPartial(text: string, reference: Option<string>, tick: Tick, re: Replies) returns (ok: bool)
      modifies this
      ensures (View(), ok) == StreamingState.OnPartial(old(View()), 1_000_000_000, text, reference, tick, re)
    {
      latestText := text;
      if sentMessageId.None? {
        match re.send {
          case SendFailed =>
            calls := calls + [Send(text, true, None, None, re.send)];
            return false;
          case Sent(id) =>
            sentMessageId := if id.Some? then id else reference;
            calls := calls + [Send(text, true, sentMessageId, Some(tick.stamped), re.send)];
            lastEdit := Some(tick.stamped);
            return true;
        }
      }
      if lastEdit.Some? && tick.checked < lastEdit.value + EDIT_INTERVAL {
        return true;
      }
      lastEdit := Some(tick.stamped);
      ok := TryEdit(text, sentMessageId.value, Some(tick), re);
    }

    method OnComplete(text: string, re: Replies) returns (ok: bool)
      modifies this
      ensures (View(), ok) == StreamingState.OnComplete(old(View()), text, re)
    {
      latestText := text;
      if sentMessageId.Some? {
        ok := TryEdit(text, sentMessageId.value, None, re);
      } else {
        calls := calls + [Send(text, false, NameOf(re.send, None), None, re.send)];
        ok := re.send.Sent?;
      }
    }
  }
}

