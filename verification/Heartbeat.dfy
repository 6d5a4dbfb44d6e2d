/** Stripping non-actionable heartbeat turns from a session history. */
module Heartbeat {
  import opened Wrappers
  import opened Text

  const OK_RESPONSE := "HEARTBEAT_OK"
  const TURN_MARKER := "__heartbeat_v2__"

  datatype Turn = Turn(role: string, content: string, metadata: Option<string>)

  datatype ResponseKind = OkResponse | Alert(text: string)

  predicate IsHeartbeat(t: Turn) {
    t.metadata == Some(TURN_MARKER)
  }

  function ClassifyResponse(response: string): ResponseKind {
    if Trim(response) == OK_RESPONSE then OkResponse else Alert(response)
  }

  predicate IsPrompt(t: Turn) { IsHeartbeat(t) && t.role == "user" }

  predicate IsReply(t: Turn) { IsHeartbeat(t) && t.role == "assistant" }

  predicate IsOkReply(t: Turn) { IsReply(t) && ClassifyResponse(t.content) == OkResponse }

  // ── The filter ──────────────────────────────────────────────────

  /**
   * A turn goes if it is an OK reply, the prompt of one, or a prompt that no heartbeat turn
   * follows.
   */
  predicate Removed(h: seq<Turn>, i: nat)
    requires i < |h|
  {
    || IsOkReply(h[i])
    || (IsPrompt(h[i]) && (i + 1 == |h| || !IsHeartbeat(h[i + 1]) || IsOkReply(h[i + 1])))
  }

  /** What is left of the history from position `from` on. */
  function StrippedFrom(h: seq<Turn>, from: nat): seq<Turn>
    requires from <= |h|
    decreases |h| - from
  {
    if from == |h| then []
    else (if Removed(h, from) then [] else [h[from]]) + StrippedFrom(h, from + 1)
  }

  function Stripped(h: seq<Turn>): seq<Turn> {
    StrippedFrom(h, 0)
  }

  // ── The algorithm ───────────────────────────────────────────────

  predicate Ascending(s: seq<nat>) {
    forall i, j :: 0 <= i < j < |s| ==> s[i] <= s[j]
  }

  predicate StrictlyAscending(s: seq<nat>) {
    forall i, j :: 0 <= i < j < |s| ==> s[i] < s[j]
  }

  function Insert(x: nat, s: seq<nat>): (r: seq<nat>)
    ensures forall y :: y in r <==> y == x || y in s
  {
    if s == [] || x <= s[0] then [x] + s
    else
      assert s == [s[0]] + s[1..];
      [s[0]] + Insert(x, s[1..])
  }

  lemma {:induction false} InsertKeepsOrder(x: nat, s: seq<nat>)
    requires Ascending(s)
    ensures Ascending(Insert(x, s))
  {
    if s != [] && x > s[0] {
      InsertKeepsOrder(x, s[1..]);
      var r := Insert(x, s[1..]);
      forall i | 0 <= i < |r| ensures s[0] <= r[i] {
        assert r[i] in r;
      }
    }
  }

  /** The standard library's sort, as far as the indices it is used on are concerned. */
  function Sort(s: seq<nat>): (r: seq<nat>)
    ensures Ascending(r)
    ensures forall y :: y in r <==> y in s
  {
    if s == [] then []
    else
      assert s == [s[0]] + s[1..];
      var rest := Sort(s[1..]);
      InsertKeepsOrder(s[0], rest);
      Insert(s[0], rest)
  }

  /** Drops repeats of neighbours. */
  method Dedup(s: seq<nat>) returns (r: seq<nat>)
    requires Ascending(s)
    ensures StrictlyAscending(r)
    ensures forall y :: y in r <==> y in s
  {
    r := [];
    for i := 0 to |s|
      invariant StrictlyAscending(r)
      invariant forall y :: y in r <==> y in s[..i]
      invariant r != [] <==> i > 0
      invariant i > 0 ==> r[|r| - 1] == s[i - 1]
    {
      if r == [] || r[|r| - 1] != s[i] {
        r := r + [s[i]];
      }
    }
  }

  /** The positions marked for removal, in the order the scan finds them. */
  method CollectRemovals(history: seq<Turn>) returns (indices: seq<nat>)
    ensures forall k: nat :: k in indices <==> k < |history| && Removed(history, k)
  {
    indices := [];
    var i := 0;
    while i < |history|
      invariant 0 <= i <= |history|
      invariant forall k: nat :: k in indices ==> k < i && Removed(history, k)
      invariant forall k :: 0 <= k < i && Removed(history, k) ==>
                  k in indices || (k == i - 1 && IsPrompt(history[k]) && i < |history| && IsOkReply(history[i]))
    {
      var turn := history[i];
      if IsHeartbeat(turn) {
        if turn.role == "assistant" {
          if ClassifyResponse(turn.content) == OkResponse {
            indices := indices + [i];
            if i > 0 && IsHeartbeat(history[i - 1]) && history[i - 1].role == "user" {
              indices := indices + [i - 1];
            }
          }
        } else if turn.role == "user" {
          if i + 1 < |history| && IsHeartbeat(history[i + 1]) && history[i + 1].role == "assistant" {
            // an OK reply takes its prompt along when the scan reaches it
          } else if i + 1 >= |history| || !IsHeartbeat(history[i + 1]) {
            indices := indices + [i];
          }
        }
      }
      i := i + 1;
    }
  }

  lemma {:induction false} StrippedSkip(h: seq<Turn>, from: nat, upto: nat)
    requires from <= upto <= |h|
    requires forall k :: from <= k < upto ==> !Removed(h, k)
    ensures StrippedFrom(h, from) == h[from..upto] + StrippedFrom(h, upto)
    decreases upto - from
  {
    if from < upto {
      StrippedSkip(h, from + 1, upto);
      calc {
        [h[from]] + StrippedFrom(h, from + 1);
        [h[from]] + (h[from + 1..upto] + StrippedFrom(h, upto));
        ([h[from]] + h[from + 1..upto]) + StrippedFrom(h, upto);
        { assert h[from..upto] == [h[from]] + h[from + 1..upto]; }
        h[from..upto] + StrippedFrom(h, upto);
      }
    }
  }

  /** Taking out the last marked turn before `p` extends the filtered tail down to it. */
  lemma RemoveOne(h: seq<Turn>, idx: nat, p: nat)
    requires idx < p <= |h| && Removed(h, idx)
    requires forall k :: idx < k < p ==> !Removed(h, k)
    ensures var cur := h[..p] + StrippedFrom(h, p);
            cur[..idx] + cur[idx + 1..] == h[..idx] + StrippedFrom(h, idx)
  {
    StrippedSkip(h, idx + 1, p);
    assert StrippedFrom(h, idx) == StrippedFrom(h, idx + 1);
    var cur, rest := h[..p] + StrippedFrom(h, p), StrippedFrom(h, p);
    assert cur[..idx] == h[..idx];
    assert cur[idx + 1..] == h[idx + 1..p] + rest;
  }

  lemma NotBetween(indices: seq<nat>, k: nat, j: nat)
    requires StrictlyAscending(indices) && k <= |indices|
    requires k > 0 ==> indices[k - 1] < j
    requires k < |indices| ==> j < indices[k]
    ensures j !in indices
  {
  }

  /** Collect, sort, deduplicate, remove from the back: the result is the filter of the original history. */
  method StripHeartbeatTurns(history: seq<Turn>) returns (stripped: seq<Turn>)
    ensures stripped == Stripped(history)
  {
    var indices := CollectRemovals(history);
    indices := Sort(indices);
    indices := Dedup(indices);
    stripped := history;
    var k := |indices|;
    ghost var p := |history|;
    while k > 0
      invariant 0 <= k <= |indices|
      invariant p == if k == |indices| then |history| else indices[k]
      invariant p <= |history|
      invariant stripped == history[..p] + StrippedFrom(history, p)
      decreases k
    {
      k := k - 1;
      var idx := indices[k];
      assert idx in indices;
      assert forall j: nat :: idx < j < p ==> !Removed(history, j);
      RemoveOne(history, idx, p);
      stripped := stripped[..idx] + stripped[idx + 1..];
      p := idx;
    }
    forall j: nat | j < p ensures !Removed(history, j) {
      NotBetween(indices, 0, j);
    }
    StrippedSkip(history, 0, p);
  }

  // ── Turn by turn ────────────────────────────────────────────────

  /** A turn of the heartbeat, in the given role. */
  predicate HeartbeatOf(t: Turn, role: string) {
    t.metadata == Some("__heartbeat_v2__") && t.role == role
  }

  /** The text is the OK response, up to blanks around it. */
  ghost predicate SaysOk(text: string) {
    exists a, b :: AllSpace(a) && AllSpace(b) && text == a + "HEARTBEAT_OK" + b
  }

  lemma SaysOkMeans(text: string)
    ensures SaysOk(text) <==> ClassifyResponse(text) == OkResponse
  {
    if Trim(text) == OK_RESPONSE {
      var lo, hi := TrimIsSpan(text);
      assert text == text[..lo] + "HEARTBEAT_OK" + text[hi..];
    }
    forall a, b | AllSpace(a) && AllSpace(b) && text == a + "HEARTBEAT_OK" + b ensures Trim(text) == OK_RESPONSE {
      TrimIgnoresPadding(a, "HEARTBEAT_OK", b);
      assert TrimStart("HEARTBEAT_OK") == "HEARTBEAT_OK" && TrimEnd("HEARTBEAT_OK") == "HEARTBEAT_OK";
    }
  }

  /** Turn `i` is an OK reply, the prompt right before one, or a prompt right before no heartbeat turn. */
  ghost predicate Goes(h: seq<Turn>, i: nat)
    requires i < |h|
  {
    || (HeartbeatOf(h[i], "assistant") && SaysOk(h[i].content))
    || (HeartbeatOf(h[i], "user")
        && (|| i + 1 == |h|
            || h[i + 1].metadata != Some("__heartbeat_v2__")
            || (h[i + 1].role == "assistant" && SaysOk(h[i + 1].content))))
  }

  lemma GoesMeans(h: seq<Turn>, i: nat)
    requires i < |h|
    ensures Goes(h, i) <==> Removed(h, i)
  {
    SaysOkMeans(h[i].content);
    if i + 1 < |h| {
      SaysOkMeans(h[i + 1].content);
    }
  }

  /** `kept` are the positions from `start` on whose turns stay, in order. */
  ghost predicate StayFrom(h: seq<Turn>, start: nat, kept: seq<nat>) {
    StrictlyAscending(kept) && forall i: nat :: i in kept <==> start <= i < |h| && !Goes(h, i)
  }

  predicate TurnsAt(h: seq<Turn>, kept: seq<nat>, turns: seq<Turn>) {
    |turns| == |kept| && forall k :: 0 <= k < |kept| ==> kept[k] < |h| && turns[k] == h[kept[k]]
  }

  lemma OneStays(h: seq<Turn>, start: nat, kept: seq<nat>, turns: seq<Turn>)
    requires start < |h| && StayFrom(h, start + 1, kept) && TurnsAt(h, kept, turns) && !Goes(h, start)
    ensures StayFrom(h, start, [start] + kept) && TurnsAt(h, [start] + kept, [h[start]] + turns)
  {
    forall k | 0 <= k < |kept| ensures start < kept[k] {
      assert kept[k] in kept;
    }
    assert forall i: nat :: i in [start] + kept <==> i == start || i in kept;
  }

  lemma OneGoes(h: seq<Turn>, start: nat, kept: seq<nat>)
    requires start < |h| && StayFrom(h, start + 1, kept) && Goes(h, start)
    ensures StayFrom(h, start, kept)
  {
  }

  lemma StrippedHere(h: seq<Turn>, start: nat)
    requires start < |h|
    ensures StrippedFrom(h, start) == (if Goes(h, start) then [] else [h[start]]) + StrippedFrom(h, start + 1)
  {
    GoesMeans(h, start);
  }

  /** Exactly the turns that do not go survive, in their order. */
  lemma {:induction false} StrippedKeeps(h: seq<Turn>, start: nat) returns (kept: seq<nat>)
    requires start <= |h|
    ensures StayFrom(h, start, kept) && TurnsAt(h, kept, StrippedFrom(h, start))
    decreases |h| - start
  {
    kept := [];
    if start < |h| {
      kept := StrippedKeeps(h, start + 1);
      StrippedHere(h, start);
      var rest := StrippedFrom(h, start + 1);
      if Goes(h, start) {
        OneGoes(h, start, kept);
        assert [] + rest == rest;
      } else {
        OneStays(h, start, kept, rest);
        kept := [start] + kept;
      }
    }
  }

  // ── What survives ───────────────────────────────────────────────

  /** Turns outside the heartbeat, in order. */
  function Regular(h: seq<Turn>): seq<Turn> {
    if h == [] then []
    else (if IsHeartbeat(h[0]) then [] else [h[0]]) + Regular(h[1..])
  }

  /** Heartbeat replies that report something, in order. */
  function Alerts(h: seq<Turn>): seq<Turn> {
    if h == [] then []
    else (if IsReply(h[0]) && !IsOkReply(h[0]) then [h[0]] else []) + Alerts(h[1..])
  }

  /** The filter looks one turn ahead only, so it works suffix by suffix. */
  lemma {:induction false} StrippedSuffix(h: seq<Turn>, from: nat)
    requires from <= |h|
    ensures StrippedFrom(h, from) == Stripped(h[from..])
    decreases |h| - from
  {
    if from < |h| {
      var t := h[from..];
      ShiftStripped(h, t, from, 0);
    }
  }

  lemma {:induction false} ShiftStripped(h: seq<Turn>, t: seq<Turn>, from: nat, i: nat)
    requires from + i <= |h| && t == h[from..]
    ensures StrippedFrom(h, from + i) == StrippedFrom(t, i)
    decreases |t| - i
  {
    if i < |t| {
      ShiftStripped(h, t, from, i + 1);
    }
  }

  /** Peeling off the first turn. */
  lemma StrippedHead(h: seq<Turn>)
    requires h != []
    ensures Stripped(h) == (if Removed(h, 0) then [] else [h[0]]) + Stripped(h[1..])
  {
    StrippedSuffix(h, 1);
  }

  /** Regular turns and alerts all survive, in their order. */
  lemma {:induction false} RegularTurnsAndAlertsSurvive(h: seq<Turn>)
    ensures Regular(Stripped(h)) == Regular(h)
    ensures Alerts(Stripped(h)) == Alerts(h)
  {
    if h != [] {
      StrippedHead(h);
      RegularTurnsAndAlertsSurvive(h[1..]);
      var rest := Stripped(h[1..]);
      if Removed(h, 0) {
        assert Stripped(h) == rest;
      }
    }
  }

  /** No OK reply survives. */
  lemma {:induction false} NoOkReplySurvives(h: seq<Turn>)
    ensures forall t :: t in Stripped(h) ==> !IsOkReply(t)
  {
    if h != [] {
      StrippedHead(h);
      NoOkReplySurvives(h[1..]);
    }
  }

  // ── Idempotence ─────────────────────────────────────────────────

  /** The first turn at or after `i` that survives, or the end. */
  function FirstKept(h: seq<Turn>, i: nat): nat
    requires i <= |h|
    decreases |h| - i
  {
    if i < |h| && Removed(h, i) then FirstKept(h, i + 1) else i
  }

  /** A prompt followed by another prompt, where stripping leaves no heartbeat turn after the first. */
  predicate Exposed(h: seq<Turn>, i: nat)
    requires i < |h|
  {
    && IsPrompt(h[i]) && i + 1 < |h| && IsPrompt(h[i + 1])
    && var j := FirstKept(h, i + 1);
       j >= |h| || !IsHeartbeat(h[j])
  }

  lemma {:induction false} FirstKeptIsHead(h: seq<Turn>, i: nat)
    requires i <= |h|
    ensures i <= FirstKept(h, i) <= |h|
    ensures var j := FirstKept(h, i);
            if j < |h| then StrippedFrom(h, i) != [] && StrippedFrom(h, i)[0] == h[j]
            else StrippedFrom(h, i) == []
    decreases |h| - i
  {
    if i < |h| && Removed(h, i) {
      FirstKeptIsHead(h, i + 1);
    }
  }

  /** After one pass, the turn at `i` would be stripped by a second exactly when it was exposed. */
  lemma SecondPassHead(h: seq<Turn>, i: nat)
    requires i < |h| && !Removed(h, i)
    ensures Removed([h[i]] + StrippedFrom(h, i + 1), 0) <==> Exposed(h, i)
  {
    FirstKeptIsHead(h, i + 1);
    StrippedSuffix(h, i + 1);
    NoOkReplySurvives(h[i + 1..]);
  }

  lemma {:induction false} SecondPass(h: seq<Turn>, i: nat)
    requires i <= |h|
    ensures |Stripped(StrippedFrom(h, i))| <= |StrippedFrom(h, i)|
    ensures Stripped(StrippedFrom(h, i)) == StrippedFrom(h, i) <==> forall k :: i <= k < |h| ==> !Exposed(h, k)
    decreases |h| - i
  {
    if i < |h| {
      SecondPass(h, i + 1);
      var rest := StrippedFrom(h, i + 1);
      if Removed(h, i) {
        assert StrippedFrom(h, i) == rest && !Exposed(h, i);
      } else {
        var s := [h[i]] + rest;
        SecondPassHead(h, i);
        StrippedHead(s);
        assert !Removed(s, 0) ==> (Stripped(s) == s <==> Stripped(rest) == rest);
      }
    }
  }

  /** Stripping twice equals stripping once exactly when no prompt is left exposed by the first pass. */
  lemma StripTwiceIff(h: seq<Turn>)
    ensures Stripped(Stripped(h)) == Stripped(h) <==> forall i :: 0 <= i < |h| ==> !Exposed(h, i)
  {
    SecondPass(h, 0);
  }

  /** In particular on every history without two prompts in a row. */
  lemma StripTwiceWithoutAdjacentPrompts(h: seq<Turn>)
    requires forall i :: 0 <= i < |h| - 1 ==> !(IsPrompt(h[i]) && IsPrompt(h[i + 1]))
    ensures Stripped(Stripped(h)) == Stripped(h)
  {
    StripTwiceIff(h);
  }

  /** Two prompts in a row, with nothing after them, take two passes. */
  lemma StripTwiceCanDiffer(p: Turn)
    requires IsPrompt(p)
    ensures Stripped(Stripped([p, p])) != Stripped([p, p])
  {
    StripTwiceIff([p, p]);
    assert Exposed([p, p], 0);
  }
}

