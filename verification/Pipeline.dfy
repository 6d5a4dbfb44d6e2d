/** From an agent's event stream, through splitting and delivery, to what the user sees. */
module Pipeline {
  import opened Wrappers
  import opened Text
  import opened Delivery
  import opened StreamingState
  import EventStream

  /** Partial deliveries carry exactly the collector's callbacks. */
  predicate Carries(ps: seq<Partial>, callbacks: seq<string>) {
    |ps| == |callbacks| && forall i :: 0 <= i < |ps| ==> ps[i].text == callbacks[i]
  }

  predicate AmongTexts(t: string, ps: seq<Partial>) {
    exists i :: 0 <= i < |ps| && t == ps[i].text
  }

  lemma AmongMore(t: string, ps: seq<Partial>)
    requires ps != []
    ensures AmongTexts(t, ps[..|ps| - 1]) || t == ps[|ps| - 1].text ==> AmongTexts(t, ps)
  {
    if AmongTexts(t, ps[..|ps| - 1]) {
      var i :| 0 <= i < |ps| - 1 && t == ps[..|ps| - 1][i].text;
      assert t == ps[i].text;
    }
  }

  lemma OnlyLastChanges(shown: seq<Message>, text: string)
    ensures shown != [] ==> forall m :: m in WithLast(shown, text) ==> m in shown || m.text == text
  {
  }

  /** Whatever is on screen while streaming is one of the partial texts delivered so far. */
  lemma {:induction false} ScreenShowsPartials(interval: nat, reference: Option<string>, ps: seq<Partial>)
    ensures forall m :: m in Screen(AfterPartials(FRESH, interval, reference, ps).calls) ==> AmongTexts(m.text, ps)
    decreases |ps|
  {
    if ps != [] {
      var n := |ps| - 1;
      var d := AfterPartials(FRESH, interval, reference, ps[..n]);
      ScreenShowsPartials(interval, reference, ps[..n]);
      ScreenWhileStreaming(interval, reference, ps[..n]);
      PartialEffects(d, interval, reference, ps[n]);
      var after := Screen(AfterPartials(FRESH, interval, reference, ps).calls);
      OnlyLastChanges(Screen(d.calls), ps[n].text);
      forall m | m in after ensures AmongTexts(m.text, ps) {
        assert m in Screen(d.calls) || m.text == ps[n].text;
        AmongMore(m.text, ps);
      }
    }
  }

  /**
   * Streaming an agent's events: at every moment each message the user sees is a prefix of the
   * partial text collected, whatever the channel does.
   */
  lemma StreamShowsPrefixes(
    items: seq<EventStream.Item>, interval: nat, reference: Option<string>, ps: seq<Partial>, n: nat)
    requires Carries(ps, EventStream.Callbacks(EventStream.Before(items))) && n <= |ps|
    ensures forall m :: m in Screen(AfterPartials(FRESH, interval, reference, ps[..n]).calls) ==>
              m.text <= EventStream.AllPartial(EventStream.Before(items))
  {
    EventStream.CallbacksGrow(EventStream.Before(items));
    ScreenShowsPartials(interval, reference, ps[..n]);
    var whole := EventStream.AllPartial(EventStream.Before(items));
    forall t | AmongTexts(t, ps[..n]) ensures t <= whole {
      var i :| 0 <= i < n && t == ps[..n][i].text;
    }
  }

  /** A response delivered over a placeholder is shown in full exactly when it fits in one message. */
  lemma PlaceholderShowsResponseIff(
    d: StreamingState.Delivery, text: string, maxLen: nat, chunks: seq<string>, re: seq<Replies>)
    requires d.sent.Some? && LastIsNamed(d) && Chunked(text, maxLen, chunks)
    requires |re| >= |chunks| && AllHonest(d, chunks, re) && Deliver(d, chunks, re).1
    ensures var shown := Screen(Deliver(d, chunks, re).0.calls);
            && chunks != [] && shown == WithLast(Screen(d.calls), chunks[|chunks| - 1])
            && (shown == WithLast(Screen(d.calls), text) <==> maxLen == 0 || |text| <= maxLen)
  {
    LastChunkIsTextIff(text, maxLen, chunks);
    PlaceholderShowsLastChunk(d, chunks, re);
    var before := Screen(d.calls);
    assert WithLast(before, text)[|before| - 1].text == text;
  }

  /** Without a placeholder the chunks are posted as messages of their own, and make up the response. */
  lemma PostedChunksReassemble(
    d: StreamingState.Delivery, text: string, maxLen: nat, chunks: seq<string>, re: seq<Replies>)
    returns (gaps: seq<string>)
    requires d.sent.None? && Chunked(text, maxLen, chunks) && |re| >= |chunks| && Deliver(d, chunks, re).1
    ensures var before, shown := Screen(d.calls), Screen(Deliver(d, chunks, re).0.calls);
            && before <= shown && TextsOf(shown[|before|..]) == chunks
            && |gaps| == |chunks| && (forall i :: 0 <= i < |gaps| ==> AllSpace(gaps[i]))
            && Interleave(TextsOf(shown[|before|..]), gaps) == text
            && (maxLen > 0 ==> forall i :: 0 <= i < |chunks| ==> |chunks[i]| <= maxLen)
  {
    FreshDeliveryPostsChunks(d, chunks, re);
    gaps := ChunkedReassembles(text, maxLen, chunks);
    if maxLen > 0 {
      var starts :| IsSplit(text, maxLen, starts, chunks);
      ChunksFit(text, maxLen, starts, chunks);
    }
    PostedTexts(Screen(d.calls), Screen(Deliver(d, chunks, re).0.calls), chunks, re);
  }

  lemma PostedTexts(before: seq<Message>, shown: seq<Message>, chunks: seq<string>, re: seq<Replies>)
    requires |re| >= |chunks| && PostedAfter(before, shown, true, chunks, re)
    ensures before <= shown && TextsOf(shown[|before|..]) == chunks
  {
    forall i | 0 <= i < |chunks| ensures TextsOf(shown[|before|..])[i] == chunks[i] {
      assert shown[|before|..][i] == shown[|before| + i];
    }
  }

  /**
   * After the first `n` messages a response is shown: by a placeholder, which holds the last chunk,
   * and so the whole response exactly when that fits the width; or else by the chunks as messages
   * that, with blank gaps, make up the response.
   */
  ghost predicate ShowsResponse(
    shown: seq<Message>, n: nat, placeholder: bool, text: string, maxLen: nat, chunks: seq<string>, gaps: seq<string>)
  {
    && chunks != [] && n < |shown|
    && (placeholder ==>
          && |shown| == n + 1 && shown[n].text == chunks[|chunks| - 1]
          && (shown[n].text == text <==> maxLen == 0 || |text| <= maxLen))
    && (!placeholder ==>
          && TextsOf(shown[n..]) == chunks && |gaps| == |chunks| && Interleave(chunks, gaps) == text
          && forall i :: 0 <= i < |gaps| ==> AllSpace(gaps[i]))
  }

  lemma DeliveryShowsResponse(
    d: StreamingState.Delivery, n: nat, text: string, maxLen: nat, chunks: seq<string>, re: seq<Replies>)
    returns (gaps: seq<string>)
    requires LastIsNamed(d) && |Screen(d.calls)| == n + (if d.sent.Some? then 1 else 0)
    requires Chunked(text, maxLen, chunks) && |re| >= |chunks| && AllHonest(d, chunks, re) && Deliver(d, chunks, re).1
    ensures var shown := Screen(Deliver(d, chunks, re).0.calls);
            ShowsResponse(shown, n, d.sent.Some?, text, maxLen, chunks, gaps) && shown[..n] == Screen(d.calls)[..n]
  {
    gaps := [];
    LastChunkIsTextIff(text, maxLen, chunks);
    if d.sent.Some? {
      PlaceholderShowsResponseIff(d, text, maxLen, chunks, re);
    } else {
      gaps := PostedChunksReassemble(d, text, maxLen, chunks, re);
      var shown := Screen(Deliver(d, chunks, re).0.calls);
      assert |TextsOf(shown[n..])| == |shown| - n;
    }
  }

  /**
   * A whole reply: an agent's events are collected, its partial texts delivered as they grow, however
   * the channel answers them, and at last the chunks of the response, successfully. The partial texts
   * posted without a name stay on screen, each a prefix of the partial text collected; after them the
   * response is shown, by the placeholder if some partial text became one.
   */
  lemma StreamEndsWithResponse(
    items: seq<EventStream.Item>, interval: nat, reference: Option<string>, ps: seq<Partial>,
    maxLen: nat, chunks: seq<string>, re: seq<Replies>)
    returns (gaps: seq<string>)
    requires Carries(ps, EventStream.Callbacks(EventStream.Before(items)))
    requires Chunked(EventStream.Resolved(items), maxLen, chunks) && |re| >= |chunks|
    requires var d := AfterPartials(FRESH, interval, reference, ps);
             AllHonest(d, chunks, re) && Deliver(d, chunks, re).1
    ensures var shown := Screen(Deliver(AfterPartials(FRESH, interval, reference, ps), chunks, re).0.calls);
            var n := |Strays(reference, ps)|;
            && ShowsResponse(shown, n, HasPlaceholder(reference, ps), EventStream.Resolved(items), maxLen, chunks, gaps)
            && forall m :: m in shown[..n] ==> m.text <= EventStream.AllPartial(EventStream.Before(items))
  {
    var d := AfterPartials(FRESH, interval, reference, ps);
    ScreenWhileStreaming(interval, reference, ps);
    gaps := DeliveryShowsResponse(d, |Strays(reference, ps)|, EventStream.Resolved(items), maxLen, chunks, re);
    StreamShowsPrefixes(items, interval, reference, ps, |ps|);
    assert ps[..|ps|] == ps;
  }

  /**
   * When the stream ends without final text or error, every text shown while streaming is a prefix of
   * the response, and the last partial text is the response itself.
   */
  lemma EarlierTextsArePrefixes(
    items: seq<EventStream.Item>, interval: nat, reference: Option<string>, ps: seq<Partial>, n: nat)
    requires Carries(ps, EventStream.Callbacks(EventStream.Before(items))) && n <= |ps|
    requires EventStream.ErrorText(items).None? && EventStream.LastFinal(EventStream.Before(items)).None?
    ensures forall m :: m in Screen(AfterPartials(FRESH, interval, reference, ps[..n]).calls) ==>
              m.text <= EventStream.Resolved(items)
    ensures EventStream.Resolved(items) == if ps == [] then "" else ps[|ps| - 1].text
  {
    StreamShowsPrefixes(items, interval, reference, ps, n);
    EventStream.CallbacksComplete(EventStream.Before(items));
  }
}
