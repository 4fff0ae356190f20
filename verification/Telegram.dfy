/** Splitting an answer into messages Telegram accepts: each within a limit counted in
    UTF-16 code units, losslessly, at paragraph or line boundaries where possible. */
module Telegram {

  /** A character of a text, as its code point. */
  type CodePoint = n: nat | n < 0x11_0000

  type Text = seq<CodePoint>

  const CR: CodePoint := 13
  const LF: CodePoint := 10

  /** A character above the basic plane takes a surrogate pair. */
  function CharUnits(c: CodePoint): nat {
    if c > 0xFFFF then 2 else 1
  }

  function Units(text: Text): nat {
    if text == [] then 0 else Units(text[..|text| - 1]) + CharUnits(text[|text| - 1])
  }

  /** The UTF-16 code units of a text (section 2.1 of RFC 2781). */
  function EncodeUtf16(text: Text): seq<nat> {
    if text == [] then []
    else
      var c := text[|text| - 1];
      EncodeUtf16(text[..|text| - 1])
      + (if c < 0x1_0000 then [c] else [0xD800 + (c - 0x1_0000) / 0x400, 0xDC00 + (c - 0x1_0000) % 0x400])
  }

  /** The limit counts exactly the code units sent. */
  lemma {:induction false} UnitsAreUtf16(text: Text)
    ensures Units(text) == |EncodeUtf16(text)|
    ensures forall i :: 0 <= i < |EncodeUtf16(text)| ==> EncodeUtf16(text)[i] < 0x1_0000
    decreases |text|
  {
    if text != [] {
      UnitsAreUtf16(text[..|text| - 1]);
    }
  }

  /** A character above the basic plane is sent as a high and a low surrogate that hold its upper
      and lower ten bits, any other as itself, each after the characters before it. */
  lemma SurrogatesOf(text: Text)
    requires text != []
    ensures var c, before, all := text[|text| - 1], EncodeUtf16(text[..|text| - 1]), EncodeUtf16(text);
            if c > 0xFFFF
            then && |all| == |before| + 2 && all[..|before|] == before
                 && var high, low := all[|before|], all[|before| + 1];
                    0xD800 <= high < 0xDC00 && 0xDC00 <= low < 0xE000 && c == 0x1_0000 + (high - 0xD800) * 0x400 + (low - 0xDC00)
            else all == before + [c]
  {
    assert EncodeUtf16(text)[..|EncodeUtf16(text[..|text| - 1])|] == EncodeUtf16(text[..|text| - 1]);
  }

  lemma UnitsStep(text: Text, start: nat, end: nat)
    requires start <= end < |text|
    ensures Units(text[start..end + 1]) == Units(text[start..end]) + CharUnits(text[end])
  {
    assert text[start..end + 1] == text[start..end] + [text[end]];
  }

  lemma {:induction false} UnitsGrow(text: Text, start: nat, end: nat, later: nat)
    requires start <= end <= later <= |text|
    ensures Units(text[start..end]) + (later - end) <= Units(text[start..later])
    decreases later - end
  {
    if end < later {
      UnitsGrow(text, start, end, later - 1);
      UnitsStep(text, start, later - 1);
    }
  }

  // ----- where a chunk may end

  /** The longest run from `start` within the limit. */
  ghost predicate IsLongest(text: Text, start: nat, max: nat, end: nat) {
    && start <= end <= |text| && Units(text[start..end]) <= max
    && (end < |text| ==> Units(text[start..end + 1]) > max)
  }

  predicate SplitsCrLf(text: Text, end: nat) {
    0 < end < |text| && text[end - 1] == CR && text[end] == LF
  }

  /** The longest run, one character shorter if it would separate CR from LF. */
  ghost predicate IsBoundedEnd(text: Text, start: nat, max: nat, end: nat) {
    exists longest: nat :: IsLongest(text, start, max, longest) && start < longest
                      && end == if SplitsCrLf(text, longest) then longest - 1 else longest
  }

  method BoundedEnd(text: Text, start: nat, max: nat) returns (fits: bool, end: nat)
    requires start < |text|
    ensures fits <==> CharUnits(text[start]) <= max
    ensures fits ==> IsBoundedEnd(text, start, max, end)
  {
    var units := 0;
    end := start;
    while end < |text| && units + CharUnits(text[end]) <= max
      invariant start <= end <= |text| && units == Units(text[start..end]) <= max
      invariant end > start ==> CharUnits(text[start]) <= max
    {
      UnitsStep(text, start, end);
      units := units + CharUnits(text[end]);
      end := end + 1;
    }
    if end < |text| {
      UnitsStep(text, start, end);
    }
    if end == start {
      return false, end;
    }
    assert IsLongest(text, start, max, end);
    fits := true;
    if end < |text| && text[end - 1] == CR && text[end] == LF {
      end := end - 1;
    }
  }

  /** From a limit of two on, stepping back before a CR LF pair still makes progress. */
  lemma BoundedEndAdvances(text: Text, start: nat, max: nat, end: nat)
    requires max >= 2 && start < |text| && IsBoundedEnd(text, start, max, end)
    ensures start < end <= |text| && Units(text[start..end]) <= max && !SplitsCrLf(text, end)
  {
    var longest: nat :| IsLongest(text, start, max, longest) && start < longest
                   && end == if SplitsCrLf(text, longest) then longest - 1 else longest;
    UnitsGrow(text, start, end, longest);
    if SplitsCrLf(text, longest) {
      UnitsOfTwo(text, longest - 1);
    }
  }

  lemma UnitsOfTwo(text: Text, start: nat)
    requires start + 1 < |text|
    ensures Units(text[start..start + 2]) == CharUnits(text[start]) + CharUnits(text[start + 1])
  {
    UnitsStep(text, start, start);
    UnitsStep(text, start, start + 1);
    assert text[start..start] == [];
  }

  /** At a limit of one it would not: the chunk before a CR LF pair would be empty forever. */
  lemma LimitOneStalls(end: nat)
    requires IsBoundedEnd([CR, LF], 0, 1, end)
    ensures end == 0
  {
    var text: Text := [CR, LF];
    var longest: nat :| IsLongest(text, 0, 1, longest) && 0 < longest
                   && end == if SplitsCrLf(text, longest) then longest - 1 else longest;
    UnitsGrow(text, 0, 0, longest);
    assert text[0..0] == [];
  }

  /** Position `i` holds `pattern` entirely inside `[start, end)`. */
  predicate OccursAt(text: Text, pattern: Text, start: nat, end: nat, i: nat) {
    start <= i && i + |pattern| <= end <= |text| && text[i..i + |pattern|] == pattern
  }

  predicate Occurs(text: Text, pattern: Text, start: nat, end: nat) {
    exists i: nat :: i < end && OccursAt(text, pattern, start, end, i)
  }

  predicate IsLastIn(text: Text, pattern: Text, start: nat, end: nat, at: nat) {
    OccursAt(text, pattern, start, end, at) && forall i: nat :: at < i < end ==> !OccursAt(text, pattern, start, end, i)
  }

  /** The last occurrence inside the window, as `rfind` gives it. */
  method FindLast(text: Text, pattern: Text, start: nat, end: nat) returns (found: bool, at: nat)
    requires start <= end <= |text| && pattern != []
    ensures found <==> Occurs(text, pattern, start, end)
    ensures found ==> IsLastIn(text, pattern, start, end, at)
  {
    at := end;
    while at > start
      invariant start <= at <= end
      invariant forall i: nat :: at <= i < end ==> !OccursAt(text, pattern, start, end, i)
    {
      at := at - 1;
      if at + |pattern| <= end && text[at..at + |pattern|] == pattern {
        assert OccursAt(text, pattern, start, end, at);
        return true, at;
      }
    }
    found := false;
  }

  /** Where the chunk starting at `start` ends, given the bound: after the last blank line
      of the window, else after its last line, else at the bound itself. */
  ghost predicate IsPreferred(text: Text, start: nat, hard: nat, end: nat) {
    if hard == |text| then end == |text|
    else if Occurs(text, [LF, LF], start, hard) then end >= 2 && IsLastIn(text, [LF, LF], start, hard, end - 2)
    else if Occurs(text, [LF], start, hard) then end >= 1 && IsLastIn(text, [LF], start, hard, end - 1)
    else end == hard
  }

  ghost predicate IsCut(text: Text, start: nat, max: nat, end: nat) {
    exists hard: nat :: IsBoundedEnd(text, start, max, hard) && IsPreferred(text, start, hard, end)
  }

  /** A preferred end keeps the bound's guarantees. */
  lemma PreferredIsGood(text: Text, start: nat, max: nat, hard: nat, end: nat)
    requires start < hard <= |text| && Units(text[start..hard]) <= max && !SplitsCrLf(text, hard)
    requires IsPreferred(text, start, hard, end)
    ensures start < end <= |text| && Units(text[start..end]) <= max && !SplitsCrLf(text, end)
  {
    if hard < |text| && Occurs(text, [LF, LF], start, hard) {
      assert text[end - 1] == text[end - 2..end][1];
    } else if hard < |text| && Occurs(text, [LF], start, hard) {
      assert text[end - 1] == text[end - 1..end][0];
    }
    UnitsGrow(text, start, end, hard);
  }

  /** The run to `end` fits the limit. */
  ghost predicate Fits(text: Text, start: nat, max: nat, end: nat) {
    start < end <= |text| && Units(text[start..end]) <= max
  }

  /** A blank line ends at `end`, inside the chunk. */
  predicate BlankLineEnds(text: Text, start: nat, end: nat) {
    start + 2 <= end <= |text| && text[end - 2] == 10 && text[end - 1] == 10
  }

  predicate LineEnds(text: Text, start: nat, end: nat) {
    start < end <= |text| && text[end - 1] == 10
  }

  /** The bound is the last fitting end, or the one before it at a CR LF pair, which ends no line. */
  lemma FittingIsWithin(text: Text, start: nat, max: nat, hard: nat, end: nat)
    requires IsBoundedEnd(text, start, max, hard) && start < end <= |text|
    ensures end <= hard ==> Fits(text, start, max, end)
    ensures Fits(text, start, max, end) && text[end - 1] == 10 ==> end <= hard
  {
    var longest: nat :| IsLongest(text, start, max, longest) && start < longest
                   && hard == if SplitsCrLf(text, longest) then longest - 1 else longest;
    if end <= longest {
      UnitsGrow(text, start, end, longest);
    } else {
      UnitsGrow(text, start, longest + 1, end);
    }
  }

  lemma OccursMeans(text: Text, start: nat, hard: nat, i: nat)
    requires hard <= |text|
    ensures OccursAt(text, [LF, LF], start, hard, i) <==> i + 2 <= hard && BlankLineEnds(text, start, i + 2)
    ensures OccursAt(text, [LF], start, hard, i) <==> i + 1 <= hard && LineEnds(text, start, i + 1)
  {
    if start <= i && i + 2 <= hard {
      assert text[i..i + 2] == [text[i], text[i + 1]];
    }
    if start <= i && i + 1 <= hard {
      assert text[i..i + 1] == [text[i]];
    }
  }

  /** Line ends that fit lie within the bound, and whatever ends there fits. */
  ghost predicate Bounds(text: Text, start: nat, max: nat, hard: nat) {
    && start < hard <= |text|
    && forall e: nat :: start < e <= |text| ==>
         (e <= hard ==> Fits(text, start, max, e)) && (Fits(text, start, max, e) && text[e - 1] == 10 ==> e <= hard)
  }

  lemma BoundedEndBounds(text: Text, start: nat, max: nat, hard: nat)
    requires max >= 2 && start < |text| && IsBoundedEnd(text, start, max, hard)
    ensures Bounds(text, start, max, hard)
  {
    BoundedEndAdvances(text, start, max, hard);
    forall e: nat | start < e <= |text|
      ensures (e <= hard ==> Fits(text, start, max, e)) && (Fits(text, start, max, e) && text[e - 1] == 10 ==> e <= hard)
    {
      FittingIsWithin(text, start, max, hard, e);
    }
  }

  lemma CutAtBlankLine(text: Text, start: nat, max: nat, hard: nat, end: nat, e: nat)
    requires Bounds(text, start, max, hard) && hard < |text| && IsPreferred(text, start, hard, end)
    requires Fits(text, start, max, e) && BlankLineEnds(text, start, e)
    ensures BlankLineEnds(text, start, end) && e <= end
  {
    OccursMeans(text, start, hard, e - 2);
    assert OccursAt(text, [LF, LF], start, hard, e - 2);
    OccursMeans(text, start, hard, end - 2);
  }

  lemma CutAtLine(text: Text, start: nat, max: nat, hard: nat, end: nat, e: nat)
    requires Bounds(text, start, max, hard) && hard < |text| && IsPreferred(text, start, hard, end)
    requires forall x: nat :: Fits(text, start, max, x) ==> !BlankLineEnds(text, start, x)
    requires Fits(text, start, max, e) && LineEnds(text, start, e)
    ensures LineEnds(text, start, end) && e <= end
  {
    forall i: nat ensures !OccursAt(text, [LF, LF], start, hard, i) {
      OccursMeans(text, start, hard, i);
    }
    OccursMeans(text, start, hard, e - 1);
    assert OccursAt(text, [LF], start, hard, e - 1);
    OccursMeans(text, start, hard, end - 1);
  }

  lemma CutAtBound(text: Text, start: nat, max: nat, hard: nat, end: nat)
    requires Bounds(text, start, max, hard) && hard < |text| && IsPreferred(text, start, hard, end)
    requires forall x: nat :: Fits(text, start, max, x) ==> !LineEnds(text, start, x)
    ensures end == hard
  {
    forall i: nat ensures !OccursAt(text, [LF, LF], start, hard, i) && !OccursAt(text, [LF], start, hard, i) {
      OccursMeans(text, start, hard, i);
    }
  }

  lemma BoundIsLate(text: Text, start: nat, max: nat, hard: nat)
    requires max >= 2 && start < |text| && IsBoundedEnd(text, start, max, hard) && hard < |text|
    ensures Units(text[start..]) > max
    ensures EndsLate(text, start, max, hard)
  {
    var longest: nat :| IsLongest(text, start, max, longest) && start < longest
                   && hard == if SplitsCrLf(text, longest) then longest - 1 else longest;
    UnitsGrow(text, start, longest + 1, |text|);
    assert text[start..|text|] == text[start..];
  }

  /** Whenever a blank line ends within the limit, the last such place is the end. */
  ghost predicate EndsAtLastBlankLine(text: Text, start: nat, max: nat, end: nat) {
    forall e: nat :: Fits(text, start, max, e) && BlankLineEnds(text, start, e) ==> BlankLineEnds(text, start, end) && e <= end
  }

  ghost predicate NoBlankLine(text: Text, start: nat, max: nat) {
    forall e: nat :: Fits(text, start, max, e) ==> !BlankLineEnds(text, start, e)
  }

  ghost predicate EndsAtLastLine(text: Text, start: nat, max: nat, end: nat) {
    forall e: nat :: Fits(text, start, max, e) && LineEnds(text, start, e) ==> LineEnds(text, start, end) && e <= end
  }

  ghost predicate NoLine(text: Text, start: nat, max: nat) {
    forall e: nat :: Fits(text, start, max, e) ==> !LineEnds(text, start, e)
  }

  /** One more character does not fit, or would be the CR of a CR LF pair that does not. */
  ghost predicate EndsLate(text: Text, start: nat, max: nat, end: nat) {
    !Fits(text, start, max, end + 1)
    || (end + 1 < |text| && text[end] == 13 && text[end + 1] == 10 && !Fits(text, start, max, end + 2))
  }

  lemma PreferredMeans(text: Text, start: nat, max: nat, hard: nat, end: nat)
    requires Bounds(text, start, max, hard) && hard < |text| && IsPreferred(text, start, hard, end)
    ensures EndsAtLastBlankLine(text, start, max, end)
    ensures NoBlankLine(text, start, max) ==> EndsAtLastLine(text, start, max, end)
    ensures NoLine(text, start, max) ==> end == hard
  {
    forall e: nat | Fits(text, start, max, e) && BlankLineEnds(text, start, e)
      ensures BlankLineEnds(text, start, end) && e <= end
    {
      CutAtBlankLine(text, start, max, hard, end, e);
    }
    if NoBlankLine(text, start, max) {
      forall e: nat | Fits(text, start, max, e) && LineEnds(text, start, e) ensures LineEnds(text, start, end) && e <= end {
        CutAtLine(text, start, max, hard, end, e);
      }
    }
    if NoLine(text, start, max) {
      CutAtBound(text, start, max, hard, end);
    }
  }

  /** A chunk that is not the last ends at the last blank line that fits, or without one at the
      last line that fits, or without one as late as the limit and a CR LF pair allow. */
  lemma CutMeans(text: Text, start: nat, max: nat, end: nat)
    requires max >= 2 && start < |text| && IsCut(text, start, max, end) && end < |text|
    ensures Units(text[start..]) > max && EndsAtLastBlankLine(text, start, max, end)
    ensures NoBlankLine(text, start, max) ==> EndsAtLastLine(text, start, max, end)
    ensures NoLine(text, start, max) ==> EndsLate(text, start, max, end)
  {
    var hard: nat :| IsBoundedEnd(text, start, max, hard) && IsPreferred(text, start, hard, end);
    BoundedEndBounds(text, start, max, hard);
    BoundIsLate(text, start, max, hard);
    PreferredMeans(text, start, max, hard, end);
  }

  method Cut(text: Text, start: nat, max: nat) returns (end: nat)
    requires max >= 2 && start < |text|
    ensures IsCut(text, start, max, end)
    ensures start < end <= |text| && Units(text[start..end]) <= max && !SplitsCrLf(text, end)
  {
    var fits, hard := BoundedEnd(text, start, max);
    BoundedEndAdvances(text, start, max, hard);
    end := Prefer(text, start, hard);
    PreferredIsGood(text, start, max, hard, end);
  }

  method Prefer(text: Text, start: nat, hard: nat) returns (end: nat)
    requires start < hard <= |text|
    ensures IsPreferred(text, start, hard, end)
  {
    if hard == |text| {
      return hard;
    }
    var paragraph, at := FindLast(text, [LF, LF], start, hard);
    if paragraph {
      return at + 2;
    }
    var line;
    line, at := FindLast(text, [LF], start, hard);
    end := if line then at + 1 else hard;
  }

  // ----- the chunks

  function Concat(chunks: seq<Text>): Text {
    if chunks == [] then [] else Concat(chunks[..|chunks| - 1]) + chunks[|chunks| - 1]
  }

  datatype Split = Refused | Chunks(chunks: seq<Text>)

  /** The chunks lie between increasing cut positions; each is nonempty, fits, ends where
      preferred, and no cut separates CR from LF. */
  ghost predicate CutInto(text: Text, max: nat, chunks: seq<Text>, cuts: seq<nat>) {
    && |cuts| == |chunks| + 1 && cuts[0] == 0
    && forall i :: 0 <= i < |chunks| ==> ChunkOk(text, max, chunks[i], cuts[i], cuts[i + 1])
  }

  ghost predicate ChunkOk(text: Text, max: nat, chunk: Text, start: nat, end: nat) {
    && start < end <= |text| && chunk == text[start..end] && Units(chunk) <= max
    && IsCut(text, start, max, end) && !SplitsCrLf(text, end)
  }

  lemma ChunkOne(text: Text, max: nat, chunks: seq<Text>, cuts: seq<nat>, chunk: Text, end: nat)
    requires CutInto(text, max, chunks, cuts) && ChunkOk(text, max, chunk, cuts[|chunks|], end)
    ensures CutInto(text, max, chunks + [chunk], cuts + [end])
  {
    var more, places := chunks + [chunk], cuts + [end];
    forall i | 0 <= i < |more| ensures ChunkOk(text, max, more[i], places[i], places[i + 1]) {
      if i < |chunks| {
        assert ChunkOk(text, max, chunks[i], cuts[i], cuts[i + 1]);
      }
    }
  }

  lemma ConcatOne(text: Text, chunks: seq<Text>, start: nat, end: nat)
    requires start <= end <= |text| && Concat(chunks) == text[..start]
    ensures Concat(chunks + [text[start..end]]) == text[..end]
  {
    assert (chunks + [text[start..end]])[..|chunks|] == chunks;
    assert text[..end] == text[..start] + text[start..end];
  }

  /** Splits a text into messages. A limit below two is refused; a text within the limit is
      one chunk, even an empty one; any other text is cut into two chunks or more. */
  method SplitTelegramText(text: Text, max: nat) returns (r: Split, ghost cuts: seq<nat>)
    ensures r.Refused? <==> max < 2
    ensures r.Chunks? ==> Concat(r.chunks) == text
    ensures r.Chunks? && Units(text) <= max ==> r.chunks == [text]
    ensures r.Chunks? && Units(text) > max ==> CutInto(text, max, r.chunks, cuts) && cuts[|r.chunks|] == |text|
  {
    cuts := [0];
    if max < 2 {
      return Refused, cuts;
    }
    var total := CountUnits(text);
    if total <= max {
      assert [text][..0] == [];
      return Chunks([text]), cuts;
    }
    var chunks: seq<Text>, start := [], 0;
    while start < |text|
      invariant start <= |text| && Concat(chunks) == text[..start]
      invariant CutInto(text, max, chunks, cuts) && cuts[|chunks|] == start
      decreases |text| - start
    {
      var end := Cut(text, start, max);
      ChunkOne(text, max, chunks, cuts, text[start..end], end);
      ConcatOne(text, chunks, start, end);
      chunks, cuts := chunks + [text[start..end]], cuts + [end];
      start := end;
    }
    assert text[..|text|] == text;
    return Chunks(chunks), cuts;
  }

  method CountUnits(text: Text) returns (n: nat)
    ensures n == Units(text)
  {
    n := 0;
    for i := 0 to |text|
      invariant n == Units(text[..i])
    {
      assert text[..i + 1] == text[..i] + [text[i]];
      n := n + CharUnits(text[i]);
    }
    assert text[..|text|] == text;
  }
}
