/** Splitting a response into chunks a channel accepts. Texts are sequences of one-byte characters. */
module Delivery {
  import opened Wrappers
  import opened Text

  /** The last position of `c`, or none. */
  function RFind(s: string, c: char): (r: Option<nat>)
    ensures r.Some? ==> r.value < |s| && s[r.value] == c && forall j :: r.value < j < |s| ==> s[j] != c
    ensures r.None? ==> forall j :: 0 <= j < |s| ==> s[j] != c
  {
    if s == [] then None
    else if s[|s| - 1] == c then Some(|s| - 1)
    else RFind(s[..|s| - 1], c)
  }

  /** Where the next chunk ends: the last newline of the window, else its last space, else its full width. */
  ghost predicate CutRule(window: string, at: nat) {
    if exists j :: 0 <= j < |window| && window[j] == '\n' then
      at < |window| && window[at] == '\n' && forall j :: at < j < |window| ==> window[j] != '\n'
    else if exists j :: 0 <= j < |window| && window[j] == ' ' then
      at < |window| && window[at] == ' ' && forall j :: at < j < |window| ==> window[j] != ' '
    else
      at == |window|
  }

  function CutPoint(window: string): (at: nat)
    ensures at <= |window| && CutRule(window, at)
    ensures forall b: nat :: CutRule(window, b) ==> b == at
  {
    var nl, sp := RFind(window, '\n'), RFind(window, ' ');
    if nl.Some? then nl.value else if sp.Some? then sp.value else |window|
  }

  /** Trimming the front of what is left moves to the next non-blank character. */
  lemma SkipBlanks(text: string, p: nat)
    requires p <= |text|
    ensures var rest := TrimStart(text[p..]);
            var next := |text| - |rest|;
            && p <= next && text[next..] == rest && AllSpace(text[p..next])
            && (next < |text| ==> !IsSpace(text[next]))
  {
    TrimStartIsSuffix(text[p..]);
    var next := |text| - |TrimStart(text[p..])|;
    assert text[p..next] == text[p..][..next - p];
  }

  /** How long a chunk is: everything left if that fits, else what the cut rule says, a cut at 0 counting as none. */
  ghost predicate CutAt(text: string, maxLen: nat, start: nat, len: nat)
    requires start <= |text|
  {
    if |text| - start <= maxLen then len == |text| - start
    else
      var window := text[start..start + maxLen];
      if CutRule(window, 0) then len == maxLen else CutRule(window, len)
  }

  /**
   * Chunk `i` is the text from `starts[i]` on, cut by the rule. Between it and the next chunk (or
   * `pos`, after the last) there is only whitespace, and what begins there is not blank.
   */
  ghost predicate ChunkOk(text: string, maxLen: nat, starts: seq<nat>, chunks: seq<string>, pos: nat, i: nat)
    requires i < |chunks| == |starts|
  {
    var end := starts[i] + |chunks[i]|;
    var next := if i + 1 < |chunks| then starts[i + 1] else pos;
    && end <= next <= |text| && chunks[i] == text[starts[i]..end] && CutAt(text, maxLen, starts[i], |chunks[i]|)
    && AllSpace(text[end..next])
    && (next < |text| ==> !IsSpace(text[next]))
    && (i + 1 < |chunks| ==> next < |text|)
  }

  /** The chunks so far, from the start of the text up to `pos`. */
  ghost predicate Covers(text: string, maxLen: nat, starts: seq<nat>, chunks: seq<string>, pos: nat) {
    && |starts| == |chunks| && pos <= |text|
    && (if chunks == [] then pos == 0 else starts[0] == 0)
    && forall i :: 0 <= i < |chunks| ==> ChunkOk(text, maxLen, starts, chunks, pos, i)
  }

  /** `chunks`, at `starts`, is the whole text split at width `maxLen`. */
  ghost predicate IsSplit(text: string, maxLen: nat, starts: seq<nat>, chunks: seq<string>) {
    chunks != [] && Covers(text, maxLen, starts, chunks, |text|)
  }

  /** The chunks a text is sent in; a zero width means no limit. */
  ghost predicate Chunked(text: string, maxLen: nat, chunks: seq<string>) {
    if maxLen == 0 then chunks == [text] else exists starts :: IsSplit(text, maxLen, starts, chunks)
  }

  lemma CoversGrows(text: string, maxLen: nat, starts: seq<nat>, chunks: seq<string>, pos: nat, len: nat, next: nat)
    requires Covers(text, maxLen, starts, chunks, pos) && (chunks != [] ==> pos < |text|)
    requires pos + len <= next <= |text| && CutAt(text, maxLen, pos, len)
    requires AllSpace(text[pos + len..next]) && (next < |text| ==> !IsSpace(text[next]))
    ensures Covers(text, maxLen, starts + [pos], chunks + [text[pos..pos + len]], next)
  {
    var s, c := starts + [pos], chunks + [text[pos..pos + len]];
    forall i | 0 <= i < |c| ensures ChunkOk(text, maxLen, s, c, next, i) {
      assert i < |chunks| ==> ChunkOk(text, maxLen, starts, chunks, pos, i);
    }
  }

  function CutLength(window: string): nat {
    if CutPoint(window) == 0 then |window| else CutPoint(window)
  }

  lemma SlicesOfRest(text: string, pos: nat, n: nat)
    requires pos + n <= |text|
    ensures text[pos..][..n] == text[pos..pos + n] && text[pos..][n..] == text[pos + n..]
  {
  }

  /** One cut, and the blanks after it, extend the cover. */
  lemma CutInText(text: string, maxLen: nat, starts: seq<nat>, chunks: seq<string>, pos: nat)
    requires Covers(text, maxLen, starts, chunks, pos) && 0 < maxLen < |text| - pos
    ensures var at := CutLength(text[pos..pos + maxLen]);
            0 < at <= maxLen
            && var rest := TrimStart(text[pos + at..]);
            && |rest| < |text| - pos && rest == text[|text| - |rest|..]
            && Covers(text, maxLen, starts + [pos], chunks + [text[pos..pos + at]], |text| - |rest|)
  {
    var at := CutLength(text[pos..pos + maxLen]);
    SkipBlanks(text, pos + at);
    CoversGrows(text, maxLen, starts, chunks, pos, at, |text| - |TrimStart(text[pos + at..])|);
  }

  /** The same, seen from what remains of the text. */
  lemma CutExtends(text: string, maxLen: nat, starts: seq<nat>, chunks: seq<string>, pos: nat, remaining: string)
    requires Covers(text, maxLen, starts, chunks, pos) && remaining == text[pos..] && 0 < maxLen < |remaining|
    ensures var at := CutLength(remaining[..maxLen]);
            var rest := TrimStart(remaining[at..]);
            && 0 < at <= maxLen && |rest| < |remaining| && rest == text[|text| - |rest|..]
            && Covers(text, maxLen, starts + [pos], chunks + [remaining[..at]], |text| - |rest|)
  {
    CutInText(text, maxLen, starts, chunks, pos);
    SlicesOfRest(text, pos, maxLen);
    SlicesOfRest(text, pos, CutLength(remaining[..maxLen]));
  }

  /** What is left becomes the last chunk if it fits. */
  lemma RestFits(text: string, maxLen: nat, starts: seq<nat>, chunks: seq<string>, pos: nat)
    requires Covers(text, maxLen, starts, chunks, pos) && |text| - pos <= maxLen && (chunks != [] ==> pos < |text|)
    ensures IsSplit(text, maxLen, starts + [pos], chunks + [text[pos..]])
  {
    assert text[pos..] == text[pos..pos + (|text| - pos)];
    CoversGrows(text, maxLen, starts, chunks, pos, |text| - pos, |text|);
  }

  /** Splits at newlines or spaces where it can; a zero width means no limit. */
  method SplitMessage(text: string, maxLen: nat) returns (chunks: seq<string>, ghost starts: seq<nat>)
    ensures maxLen == 0 ==> chunks == [text]
    ensures maxLen > 0 ==> IsSplit(text, maxLen, starts, chunks)
  {
    chunks, starts := [], [];
    if maxLen == 0 {
      return [text], starts;
    }
    if |text| <= maxLen {
      assert text[0..] == text && [] + [text] == [text];
      return [text], [0];
    }
    var remaining := text;
    ghost var pos: nat := 0;
    while remaining != []
      invariant pos <= |text| && remaining == text[pos..]
      invariant Covers(text, maxLen, starts, chunks, pos)
      decreases |remaining|
    {
      if |remaining| <= maxLen {
        RestFits(text, maxLen, starts, chunks, pos);
        return chunks + [remaining], starts + [pos];
      }
      CutExtends(text, maxLen, starts, chunks, pos, remaining);
      var at := CutPoint(remaining[..maxLen]);
      at := if at == 0 then maxLen else at;
      chunks, starts := chunks + [remaining[..at]], starts + [pos];
      remaining := TrimStart(remaining[at..]);
      pos := |text| - |remaining|;
    }
  }

  // ── What a split guarantees ─────────────────────────────────────

  /** Chunks fit the width, and are not empty unless the text is. */
  lemma ChunksFit(text: string, maxLen: nat, starts: seq<nat>, chunks: seq<string>)
    requires maxLen > 0 && IsSplit(text, maxLen, starts, chunks)
    ensures forall i :: 0 <= i < |chunks| ==> |chunks[i]| <= maxLen
    ensures text != [] ==> forall i :: 0 <= i < |chunks| ==> chunks[i] != []
  {
    forall i | 0 <= i < |chunks| ensures |chunks[i]| <= maxLen && (text != [] ==> chunks[i] != []) {
      assert ChunkOk(text, maxLen, starts, chunks, |text|, i);
      assert i > 0 ==> ChunkOk(text, maxLen, starts, chunks, |text|, i - 1);
    }
  }

  /**
   * From the second chunk on, a chunk that is cut off ends at the last newline of its window, else
   * at its last space; it fills the window only if that holds neither.
   */
  lemma LaterCutsKeepWords(text: string, maxLen: nat, starts: seq<nat>, chunks: seq<string>, i: nat)
    requires maxLen > 0 && IsSplit(text, maxLen, starts, chunks)
    requires 0 < i < |chunks| && starts[i] + maxLen < |text|
    ensures CutRule(text[starts[i]..starts[i] + maxLen], |chunks[i]|)
    ensures |chunks[i]| == maxLen <==>
            forall j :: starts[i] <= j < starts[i] + maxLen ==> text[j] != '\n' && text[j] != ' '
  {
    assert ChunkOk(text, maxLen, starts, chunks, |text|, i - 1);
    assert ChunkOk(text, maxLen, starts, chunks, |text|, i);
  }

  /** The last chunk is the whole text exactly when the text fits. */
  lemma LastChunkIsTextIff(text: string, maxLen: nat, chunks: seq<string>)
    requires Chunked(text, maxLen, chunks)
    ensures chunks != [] && (chunks[|chunks| - 1] == text <==> maxLen == 0 || |text| <= maxLen)
  {
    if maxLen > 0 {
      var starts :| IsSplit(text, maxLen, starts, chunks);
      ChunksFit(text, maxLen, starts, chunks);
      assert ChunkOk(text, maxLen, starts, chunks, |text|, 0);
    }
  }

  /** Chunks and gaps, one after the other. */
  function Interleave(chunks: seq<string>, gaps: seq<string>): string
    requires |chunks| == |gaps|
  {
    if chunks == [] then [] else chunks[0] + gaps[0] + Interleave(chunks[1..], gaps[1..])
  }

  function Until(text: string, starts: seq<nat>, i: nat): nat
    requires i < |starts|
  {
    if i + 1 < |starts| then starts[i + 1] else |text|
  }

  /** Chunk `i` and the gap after it are the text from one start to the next. */
  predicate Tiles(text: string, starts: seq<nat>, chunks: seq<string>, gaps: seq<string>, i: nat)
    requires i < |starts| == |chunks| == |gaps|
  {
    starts[i] <= Until(text, starts, i) <= |text| && chunks[i] + gaps[i] == text[starts[i]..Until(text, starts, i)]
  }

  lemma {:induction false} InterleaveFrom(
    text: string, starts: seq<nat>, chunks: seq<string>, gaps: seq<string>, k: nat)
    requires k < |starts| == |chunks| == |gaps|
    requires forall i :: 0 <= i < |chunks| ==> Tiles(text, starts, chunks, gaps, i)
    ensures starts[k] <= |text| && Interleave(chunks[k..], gaps[k..]) == text[starts[k]..]
    decreases |chunks| - k
  {
    assert Tiles(text, starts, chunks, gaps, k);
    if k + 1 < |chunks| {
      InterleaveFrom(text, starts, chunks, gaps, k + 1);
    }
  }

  /** The text is exactly its chunks interleaved with whitespace-only gaps. */
  lemma SplitReassembles(text: string, maxLen: nat, starts: seq<nat>, chunks: seq<string>) returns (gaps: seq<string>)
    requires maxLen > 0 && IsSplit(text, maxLen, starts, chunks)
    ensures |gaps| == |chunks| && (forall i :: 0 <= i < |gaps| ==> AllSpace(gaps[i]))
    ensures Interleave(chunks, gaps) == text
  {
    gaps := [];
    while |gaps| < |chunks|
      invariant |gaps| <= |chunks|
      invariant forall i :: 0 <= i < |gaps| ==> AllSpace(gaps[i])
      invariant forall i :: 0 <= i < |gaps| ==> GapAt(text, starts, chunks, gaps[i], i)
    {
      assert ChunkOk(text, maxLen, starts, chunks, |text|, |gaps|);
      gaps := gaps + [text[starts[|gaps|] + |chunks[|gaps|]|..Until(text, starts, |gaps|)]];
    }
    forall i | 0 <= i < |chunks| ensures Tiles(text, starts, chunks, gaps, i) {
      assert ChunkOk(text, maxLen, starts, chunks, |text|, i);
    }
    InterleaveFrom(text, starts, chunks, gaps, 0);
  }

  lemma ChunkedReassembles(text: string, maxLen: nat, chunks: seq<string>) returns (gaps: seq<string>)
    requires Chunked(text, maxLen, chunks)
    ensures |gaps| == |chunks| && (forall i :: 0 <= i < |gaps| ==> AllSpace(gaps[i]))
    ensures Interleave(chunks, gaps) == text
  {
    if maxLen == 0 {
      gaps := [""];
    } else {
      var starts :| IsSplit(text, maxLen, starts, chunks);
      gaps := SplitReassembles(text, maxLen, starts, chunks);
    }
  }

  predicate GapAt(text: string, starts: seq<nat>, chunks: seq<string>, gap: string, i: nat)
    requires i < |starts| == |chunks|
  {
    var end := starts[i] + |chunks[i]|;
    end <= Until(text, starts, i) <= |text| && gap == text[end..Until(text, starts, i)]
  }

  /** The rule leaves no choice: two splits of the same text at the same width are the same. */
  lemma {:induction false} SplitUnique(
    text: string, maxLen: nat, s: seq<nat>, c: seq<string>, s': seq<nat>, c': seq<string>, k: nat)
    requires maxLen > 0 && IsSplit(text, maxLen, s, c) && IsSplit(text, maxLen, s', c')
    requires k < |c| && k < |c'|
    ensures s[k] == s'[k] && c[k] == c'[k]
    ensures Until(text, s, k) == Until(text, s', k)
    ensures k + 1 == |c| <==> k + 1 == |c'|
  {
    assert ChunkOk(text, maxLen, s, c, |text|, k) && ChunkOk(text, maxLen, s', c', |text|, k);
    if k > 0 {
      SplitUnique(text, maxLen, s, c, s', c', k - 1);
    }
    NextNonBlank(text, s[k] + |c[k]|, Until(text, s, k), Until(text, s', k));
  }

  lemma NextNonBlank(text: string, end: nat, a: nat, b: nat)
    requires end <= a <= |text| && end <= b <= |text|
    requires AllSpace(text[end..a]) && AllSpace(text[end..b])
    requires (a < |text| ==> !IsSpace(text[a])) && (b < |text| ==> !IsSpace(text[b]))
    ensures a == b
  {
  }
}

