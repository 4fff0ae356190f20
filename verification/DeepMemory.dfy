/** The byte budgets of deep memory retrieval: clipping at a character boundary, the greedy
    choice of recalled lines, and an exact source with its surrounding messages. */
module DeepMemory {
  import opened Basics
  import opened Utf8

  /** The ellipsis appended to a clipped text, U+2026. */
  const MARKER: Scalar := 0x2026

  const NEWLINE: Scalar := 10

  /** The clip limit of one recalled line and of one surrounding message. */
  const SNIPPET: nat := 320

  // ----- clipping

  /** How many leading characters fit in `room` bytes. */
  function Fitting(text: Text, room: nat): (j: nat)
    ensures j <= |text|
  {
    if text == [] || |EncodeOne(text[0])| > room then 0
    else 1 + Fitting(text[1..], room - |EncodeOne(text[0])|)
  }

  /** The first `j` characters fit, one more would not. */
  ghost predicate IsLongestPrefix(text: Text, room: nat, j: nat) {
    j <= |text| && Size(text[..j]) <= room && (j < |text| ==> Size(text[..j + 1]) > room)
  }

  lemma {:induction false} FittingIsLongest(text: Text, room: nat)
    ensures IsLongestPrefix(text, room, Fitting(text, room))
    decreases |text|
  {
    assert text[..0] == [];
    if text != [] {
      SizeFromFirst(text, 1);
      assert text[1..][..0] == [];
      if |EncodeOne(text[0])| <= room {
        FittingIsLongest(text[1..], room - |EncodeOne(text[0])|);
        var j := Fitting(text, room);
        SizeFromFirst(text, j);
        if j < |text| { SizeFromFirst(text, j + 1); }
      }
    }
  }

  lemma LongestPrefixIsUnique(text: Text, room: nat, i: nat, j: nat)
    requires IsLongestPrefix(text, room, i) && IsLongestPrefix(text, room, j)
    ensures i == j
  {
    if i < j {
      SizeOfPrefix(text, i + 1, j);
    } else if j < i {
      SizeOfPrefix(text, j + 1, i);
    }
  }

  datatype Clip = Clip(text: Text, truncated: bool)

  /** A text over budget keeps its longest prefix that leaves room for the marker; without
      room even for the marker nothing is kept. */
  function Clipped(value: Text, budget: int): Clip {
    if Size(value) <= budget then Clip(value, false)
    else if budget < Size([MARKER]) then Clip([], true)
    else Clip(value[..Fitting(value, budget - Size([MARKER]))] + [MARKER], true)
  }

  lemma MarkerSize()
    ensures Size([MARKER]) == 3
  {
    EncodeFirst(MARKER, []);
    assert [MARKER] + [] == [MARKER];
  }

  /** A clip never exceeds its budget. */
  lemma ClippedFits(value: Text, budget: int)
    ensures Size(Clipped(value, budget).text) <= if budget < 0 then 0 else budget
    ensures budget >= 0 ==> (Clipped(value, budget).truncated <==> Clipped(value, budget).text != value)
  {
    MarkerSize();
    if Size(value) > budget && budget >= Size([MARKER]) {
      FittingIsLongest(value, budget - Size([MARKER]));
      SizeConcat(value[..Fitting(value, budget - Size([MARKER]))], [MARKER]);
    }
  }

  /** A text within budget is kept. Any other keeps the longest prefix that leaves three bytes for
      the ellipsis, and the ellipsis, or nothing if there is no room for that. */
  lemma ClippedIsLongest(value: Text, budget: int)
    ensures Size(value) <= budget ==> Clipped(value, budget) == Clip(value, false)
    ensures Size(value) > budget && budget < 3 ==> Clipped(value, budget) == Clip([], true)
    ensures Size(value) > budget && budget >= 3 ==>
              exists j: nat :: IsLongestPrefix(value, budget - 3, j) && Clipped(value, budget) == Clip(value[..j] + [0x2026], true)
  {
    MarkerSize();
    if Size(value) > budget && budget >= 3 {
      FittingIsLongest(value, budget - 3);
    }
  }

  /** Trims bytes off the end until the rest decodes. */
  method ClipUtf8(value: Text, budget: int) returns (r: Clip)
    ensures r == Clipped(value, budget)
  {
    var encoded := Encode(value);
    if |encoded| <= budget {
      return Clip(value, false);
    }
    MarkerSize();
    var room := if budget < 3 then 0 else budget - 3;
    var clipped := encoded[..room];
    while clipped != []
      invariant |clipped| <= room && clipped == encoded[..|clipped|]
      invariant forall m: nat :: |clipped| < m <= room ==> !EndsBetween(value, m)
      decreases |clipped|
    {
      PrefixDecodesIffAligned(value, |clipped|);
      var decoded := Decode(clipped);
      if decoded.Text? {
        ghost var j: nat :| Aligned(value, |clipped|, j);
        AlignedIsLongest(value, room, |clipped|, j);
        return Clip(decoded.text + [MARKER], true);
      }
      assert encoded[..|clipped|][..|clipped| - 1] == encoded[..|clipped| - 1];
      clipped := clipped[..|clipped| - 1];
    }
    if budget >= 3 {
      assert value[..0] == [] && Aligned(value, 0, 0);
      AlignedIsLongest(value, room, 0, 0);
      assert [] + [MARKER] == [MARKER];
      return Clip([MARKER], true);
    }
    return Clip([], true);
  }

  /** The last boundary within the room ends the longest fitting prefix. */
  lemma AlignedIsLongest(value: Text, room: nat, k: nat, j: nat)
    requires Aligned(value, k, j) && k <= room
    requires forall m: nat :: k < m <= room ==> !EndsBetween(value, m)
    ensures j == Fitting(value, room)
  {
    if j < |value| {
      SizeOfPrefix(value, j, j + 1);
      assert Aligned(value, Size(value[..j + 1]), j + 1) && EndsBetween(value, Size(value[..j + 1]));
    }
    FittingIsLongest(value, room);
    LongestPrefixIsUnique(value, room, j, Fitting(value, room));
  }

  // ----- recall

  /** A recalled memory: what its line says before the text, and the text. */
  datatype Memory = Memory(lead: Text, text: Text)

  function LineOf(memory: Memory): Text {
    memory.lead + Clipped(memory.text, SNIPPET).text
  }

  /** After its lead a line holds the memory's text, clipped to 320 bytes. */
  lemma LineHolds(memory: Memory)
    ensures |LineOf(memory)| >= |memory.lead| && LineOf(memory)[..|memory.lead|] == memory.lead
    ensures LineOf(memory)[|memory.lead|..] == Clipped(memory.text, 320).text
    ensures Size(LineOf(memory)[|memory.lead|..]) <= 320
  {
    ClippedFits(memory.text, 320);
  }

  function Joined(header: Text, lines: seq<Text>): Text {
    if lines == [] then header
    else Joined(header, lines[..|lines| - 1]) + [NEWLINE] + lines[|lines| - 1]
  }

  /** The header comes first, and every line follows a line feed. */
  lemma {:induction false} JoinedHolds(header: Text, lines: seq<Text>, k: nat) returns (at: nat)
    requires k < |lines|
    ensures |header| <= |Joined(header, lines)| && Joined(header, lines)[..|header|] == header
    ensures |header| < at && at + |lines[k]| <= |Joined(header, lines)|
    ensures Joined(header, lines)[at - 1] == 10 && Joined(header, lines)[at..at + |lines[k]|] == lines[k]
  {
    var n := |lines| - 1;
    var most := Joined(header, lines[..n]);
    JoinedStarts(header, lines[..n]);
    assert Joined(header, lines)[..|most|] == most;
    if k == n {
      at := |most| + 1;
    } else {
      at := JoinedHolds(header, lines[..n], k);
      assert lines[..n][k] == lines[k];
      assert Joined(header, lines)[at..at + |lines[k]|] == most[at..at + |lines[k]|];
    }
  }

  lemma {:induction false} JoinedStarts(header: Text, lines: seq<Text>)
    ensures |header| <= |Joined(header, lines)| && Joined(header, lines)[..|header|] == header
  {
    if lines != [] {
      JoinedStarts(header, lines[..|lines| - 1]);
      assert Joined(header, lines)[..|header|] == Joined(header, lines[..|lines| - 1])[..|header|];
    }
  }

  /** Nothing else is in the context: it is as long as its header, its lines and their breaks. */
  lemma {:induction false} JoinedSize(header: Text, lines: seq<Text>)
    ensures Size(Joined(header, lines)) == Size(header) + TotalSize(lines) + |lines|
  {
    if lines != [] {
      var n := |lines| - 1;
      var most := Joined(header, lines[..n]);
      JoinedSize(header, lines[..n]);
      EncodeFirst(NEWLINE, []);
      assert [NEWLINE] + [] == [NEWLINE];
      SizeConcat(most, [NEWLINE]);
      SizeConcat(most + [NEWLINE], lines[n]);
    }
  }

  /** One more memory's line, if the result limit and the budget allow it. */
  function ChooseOne(header: Text, lines: seq<Text>, line: Text, limit: nat, budget: nat): seq<Text> {
    if |lines| < limit && Size(Joined(header, lines + [line])) <= budget then lines + [line] else lines
  }

  /** The lines taken from the first `n` memories: each in turn, if it still fits. */
  function Chosen(header: Text, memories: seq<Memory>, limit: nat, budget: nat, n: nat): seq<Text>
    requires n <= |memories|
  {
    if n == 0 then []
    else ChooseOne(header, Chosen(header, memories, limit, budget, n - 1), LineOf(memories[n - 1]), limit, budget)
  }

  /** The chosen lines respect both limits. */
  lemma {:induction false} ChosenFits(header: Text, memories: seq<Memory>, limit: nat, budget: nat, n: nat)
    requires n <= |memories| && Size(header) <= budget
    ensures var lines := Chosen(header, memories, limit, budget, n);
            |lines| <= limit && Size(Joined(header, lines)) <= budget
  {
    if n > 0 {
      ChosenFits(header, memories, limit, budget, n - 1);
      ChoiceFits(header, Chosen(header, memories, limit, budget, n - 1), LineOf(memories[n - 1]), limit, budget);
    }
  }

  lemma ChoiceFits(header: Text, lines: seq<Text>, line: Text, limit: nat, budget: nat)
    requires |lines| <= limit && Size(Joined(header, lines)) <= budget
    ensures var more := ChooseOne(header, lines, line, limit, budget);
            |more| <= limit && Size(Joined(header, more)) <= budget
  {
  }

  /** Once the result limit is reached nothing more is taken. */
  lemma {:induction false} ChosenStops(header: Text, memories: seq<Memory>, limit: nat, budget: nat, i: nat, n: nat)
    requires i <= n <= |memories| && |Chosen(header, memories, limit, budget, i)| >= limit
    ensures Chosen(header, memories, limit, budget, n) == Chosen(header, memories, limit, budget, i)
    decreases n
  {
    if i < n {
      ChosenStops(header, memories, limit, budget, i, n - 1);
    }
  }

  /** `taken` are the positions of the memories behind the lines. */
  ghost predicate Behind(memories: seq<Memory>, lines: seq<Text>, taken: seq<nat>) {
    && |taken| == |lines|
    && forall k :: 0 <= k < |taken| ==> taken[k] < |memories| && lines[k] == LineOf(memories[taken[k]])
  }

  ghost predicate SomeClipped(memories: seq<Memory>, taken: seq<nat>) {
    exists k :: 0 <= k < |taken| && taken[k] < |memories| && Clipped(memories[taken[k]].text, SNIPPET).truncated
  }

  /** Memory `i` was taken exactly if, after the `n` lines taken from those before it, there was
      room for one more line and for this one. */
  ghost predicate DecidedAt(header: Text, memories: seq<Memory>, lines: seq<Text>, taken: seq<nat>, limit: nat, budget: nat,
                            i: nat, n: nat)
    requires i < |memories|
  {
    && n <= |taken| == |lines| && (forall k :: 0 <= k < n ==> taken[k] < i) && (forall k :: n <= k < |taken| ==> i <= taken[k])
    && (i in taken <==> n < limit && Size(Joined(header, lines[..n] + [LineOf(memories[i])])) <= budget)
  }

  ghost predicate Greedy(header: Text, memories: seq<Memory>, lines: seq<Text>, taken: seq<nat>, limit: nat, budget: nat, m: nat)
    requires m <= |memories|
  {
    && (forall j, k :: 0 <= j < k < |taken| ==> taken[j] < taken[k]) && (forall k :: 0 <= k < |taken| ==> taken[k] < m)
    && forall i: nat :: i < m ==> Decided(header, memories, lines, taken, limit, budget, i)
  }

  ghost predicate Decided(header: Text, memories: seq<Memory>, lines: seq<Text>, taken: seq<nat>, limit: nat, budget: nat, i: nat)
    requires i < |memories|
  {
    exists n: nat :: DecidedAt(header, memories, lines, taken, limit, budget, i, n)
  }

  lemma DecisionStays(header: Text, memories: seq<Memory>, lines: seq<Text>, taken: seq<nat>, limit: nat, budget: nat,
                      i: nat, n: nat, line: Text, m: nat)
    requires i < m < |memories| && DecidedAt(header, memories, lines, taken, limit, budget, i, n)
    ensures DecidedAt(header, memories, lines + [line], taken + [m], limit, budget, i, n)
  {
    assert (lines + [line])[..n] == lines[..n];
    assert i in taken + [m] <==> i in taken;
  }

  /** Deciding one more memory. */
  lemma GreedyNext(header: Text, memories: seq<Memory>, lines: seq<Text>, taken: seq<nat>, limit: nat, budget: nat, m: nat, takes: bool)
    requires m < |memories| && |lines| == |taken| && Greedy(header, memories, lines, taken, limit, budget, m)
    requires takes <==> |taken| < limit && Size(Joined(header, lines + [LineOf(memories[m])])) <= budget
    ensures if takes then Greedy(header, memories, lines + [LineOf(memories[m])], taken + [m], limit, budget, m + 1)
            else Greedy(header, memories, lines, taken, limit, budget, m + 1)
  {
    var line, n := LineOf(memories[m]), |taken|;
    var lines', taken' := if takes then lines + [line] else lines, if takes then taken + [m] else taken;
    forall i: nat | i < m + 1 ensures Decided(header, memories, lines', taken', limit, budget, i) {
      if i < m {
        assert Decided(header, memories, lines, taken, limit, budget, i);
        var n: nat :| DecidedAt(header, memories, lines, taken, limit, budget, i, n);
        if takes {
          DecisionStays(header, memories, lines, taken, limit, budget, i, n, line, m);
        }
        assert DecidedAt(header, memories, lines', taken', limit, budget, i, n);
      } else {
        assert lines'[..n] == lines;
        assert takes ==> taken'[n] == m;
        assert DecidedAt(header, memories, lines', taken', limit, budget, m, n);
      }
    }
  }

  /** Once the limit is reached every other memory is left out. */
  lemma GreedyStops(header: Text, memories: seq<Memory>, lines: seq<Text>, taken: seq<nat>, limit: nat, budget: nat, m: nat)
    requires m <= |memories| && |lines| == |taken| >= limit && Greedy(header, memories, lines, taken, limit, budget, m)
    ensures Greedy(header, memories, lines, taken, limit, budget, |memories|)
  {
    forall i: nat | i < |memories| ensures Decided(header, memories, lines, taken, limit, budget, i) {
      if i >= m {
        assert DecidedAt(header, memories, lines, taken, limit, budget, i, |taken|);
      }
    }
  }

  lemma TakeOne(memories: seq<Memory>, lines: seq<Text>, taken: seq<nat>, i: nat)
    requires Behind(memories, lines, taken) && i < |memories|
    ensures Behind(memories, lines + [LineOf(memories[i])], taken + [i])
    ensures SomeClipped(memories, taken + [i])
            <==> SomeClipped(memories, taken) || Clipped(memories[i].text, SNIPPET).truncated
  {
    var more := taken + [i];
    assert more[|taken|] == i;
    assert forall k :: 0 <= k < |taken| ==> more[k] == taken[k];
  }

  lemma ChosenNext(header: Text, memories: seq<Memory>, limit: nat, budget: nat, i: nat, lines: seq<Text>, line: Text)
    requires i < |memories| && lines == Chosen(header, memories, limit, budget, i) && line == LineOf(memories[i])
    ensures Chosen(header, memories, limit, budget, i + 1) == ChooseOne(header, lines, line, limit, budget)
  {
  }

  /** What has been chosen from the first `m` memories. */
  ghost predicate ChoiceOk(header: Text, memories: seq<Memory>, limit: nat, budget: nat, m: nat,
                           lines: seq<Text>, taken: seq<nat>, clippedAny: bool)
  {
    && m <= |memories| && lines == Chosen(header, memories, limit, budget, m) && Behind(memories, lines, taken)
    && (clippedAny <==> SomeClipped(memories, taken)) && Greedy(header, memories, lines, taken, limit, budget, m)
  }

  lemma ChoiceStops(header: Text, memories: seq<Memory>, limit: nat, budget: nat, m: nat,
                    lines: seq<Text>, taken: seq<nat>, clippedAny: bool)
    requires ChoiceOk(header, memories, limit, budget, m, lines, taken, clippedAny) && |taken| >= limit
    ensures ChoiceOk(header, memories, limit, budget, |memories|, lines, taken, clippedAny)
  {
    ChosenStops(header, memories, limit, budget, m, |memories|);
    GreedyStops(header, memories, lines, taken, limit, budget, m);
  }

  method ChooseLines(header: Text, memories: seq<Memory>, limit: nat, budget: nat)
    returns (lines: seq<Text>, taken: seq<nat>, clippedAny: bool)
    ensures ChoiceOk(header, memories, limit, budget, |memories|, lines, taken, clippedAny)
  {
    lines, taken, clippedAny := [], [], false;
    for i := 0 to |memories|
      invariant ChoiceOk(header, memories, limit, budget, i, lines, taken, clippedAny)
    {
      if |taken| >= limit {
        ChoiceStops(header, memories, limit, budget, i, lines, taken, clippedAny);
        return;
      }
      lines, taken, clippedAny := TryLine(header, memories, lines, taken, clippedAny, limit, budget, i);
    }
  }

  /** Takes the next memory's line if it fits the budget. */
  method TryLine(header: Text, memories: seq<Memory>, lines0: seq<Text>, taken0: seq<nat>, clipped0: bool,
                 limit: nat, budget: nat, i: nat)
    returns (lines: seq<Text>, taken: seq<nat>, clippedAny: bool)
    requires i < |memories| && |taken0| < limit
    requires ChoiceOk(header, memories, limit, budget, i, lines0, taken0, clipped0)
    ensures ChoiceOk(header, memories, limit, budget, i + 1, lines, taken, clippedAny)
  {
    lines, taken, clippedAny := lines0, taken0, clipped0;
    var clip := ClipUtf8(memories[i].text, SNIPPET);
    var line := memories[i].lead + clip.text;
    ChosenNext(header, memories, limit, budget, i, lines, line);
    TakeOne(memories, lines, taken, i);
    GreedyNext(header, memories, lines, taken, limit, budget, i, |Encode(Joined(header, lines + [line]))| <= budget);
    if |Encode(Joined(header, lines + [line]))| <= budget {
      lines, taken, clippedAny := lines + [line], taken + [i], clippedAny || clip.truncated;
    }
  }

  /** Why there is no answer: the query, or the backend. */
  datatype Failure = BadQuery | Unavailable

  datatype RecallView = RecallView(context: Text, taken: seq<nat>, truncated: bool)

  /** The recall context never exceeds its budget nor its result limit; the truncation flag
      is set exactly when a memory was left out or a chosen text was clipped. The backend
      answers with the relevant memories, or not at all. */
  method Recall(query: Text, queryBudget: nat, answer: Option<seq<Memory>>, header: Text, limit: nat, budget: nat)
    returns (r: Result<RecallView, Failure>)
    requires Size(header) < budget
    ensures r == Err(BadQuery) <==> query == [] || Size(query) > queryBudget
    ensures r == Err(Unavailable) <==> query != [] && Size(query) <= queryBudget && answer.None?
    ensures r.Ok? ==>
              var memories, view := answer.value, r.value;
              && view.context == Joined(header, Chosen(header, memories, limit, budget, |memories|))
              && Size(view.context) <= budget && |view.taken| <= limit
              && Behind(memories, Chosen(header, memories, limit, budget, |memories|), view.taken)
              && (view.truncated <==> |view.taken| < |memories| || SomeClipped(memories, view.taken))
    ensures r.Ok? ==>
              var memories, taken := answer.value, r.value.taken;
              var lines := Chosen(header, memories, limit, budget, |memories|);
              && Greedy(header, memories, lines, taken, limit, budget, |memories|)
              && |lines| == |taken|
              && forall k :: 0 <= k < |taken| ==>
                   taken[k] < |memories| && lines[k] == memories[taken[k]].lead + Clipped(memories[taken[k]].text, 320).text
  {
    if query == [] || |Encode(query)| > queryBudget {
      return Err(BadQuery);
    }
    if answer.None? {
      return Err(Unavailable);
    }
    var memories := answer.value;
    var lines, taken, clippedAny := ChooseLines(header, memories, limit, budget);
    ChosenFits(header, memories, limit, budget, |memories|);
    return Ok(RecallView(Joined(header, lines), taken, clippedAny || |taken| < |memories|));
  }

  // ----- reflect

  datatype ReflectView = ReflectView(text: Text, truncated: bool)

  /** The synthesis is clipped to what the header leaves of the budget. */
  method Reflect(query: Text, queryBudget: nat, answer: Option<Text>, header: Text, budget: nat)
    returns (r: Result<ReflectView, Failure>)
    requires Size(header) < budget
    ensures r == Err(BadQuery) <==> query == [] || Size(query) > queryBudget
    ensures r == Err(Unavailable) <==> query != [] && Size(query) <= queryBudget && answer.None?
    ensures r.Ok? ==>
              var room := budget - Size(header + [NEWLINE]);
              && r.value.text == header + [NEWLINE] + Clipped(answer.value, room).text && Size(r.value.text) <= budget
              && (r.value.truncated <==> Size(answer.value) > room)
  {
    if query == [] || |Encode(query)| > queryBudget {
      return Err(BadQuery);
    }
    if answer.None? {
      return Err(Unavailable);
    }
    var available := budget - |Encode(header + [NEWLINE])|;
    var clip := ClipUtf8(answer.value, available);
    SizeConcat(header, [NEWLINE]);
    assert [NEWLINE][1..] == [];
    SizeConcat(header + [NEWLINE], clip.text);
    ClippedFits(answer.value, available);
    return Ok(ReflectView(header + [NEWLINE] + clip.text, clip.truncated));
  }

  // ----- an exact source and its surroundings

  function TotalSize(texts: seq<Text>): nat {
    if texts == [] then 0 else TotalSize(texts[..|texts| - 1]) + Size(texts[|texts| - 1])
  }

  /** Messages shown around a source, and the budget they leave. */
  datatype Around = Around(texts: seq<Text>, left: int)

  function SnippetRoom(left: int): int {
    if left < SNIPPET then left else SNIPPET
  }

  /** One more neighbour, clipped to the snippet limit or what is left, unless nothing is left. */
  function ShowOne(shown: Around, neighbor: Text): Around {
    if shown.left <= 0 then shown
    else
      var clip := Clipped(neighbor, SnippetRoom(shown.left));
      Around(shown.texts + [clip.text], shown.left - Size(clip.text))
  }

  function Surrounding(neighbors: seq<Text>, budget: int, n: nat): Around
    requires n <= |neighbors|
  {
    if n == 0 then Around([], budget) else ShowOne(Surrounding(neighbors, budget, n - 1), neighbors[n - 1])
  }

  lemma ShowOneFits(shown: Around, neighbor: Text, budget: nat)
    requires shown.left == budget - TotalSize(shown.texts) && shown.left >= 0
    ensures var more := ShowOne(shown, neighbor);
            && more.left == budget - TotalSize(more.texts) && more.left >= 0
            && |more.texts| == |shown.texts| + if shown.left > 0 then 1 else 0
  {
    if shown.left > 0 {
      var clip := Clipped(neighbor, SnippetRoom(shown.left));
      ClippedFits(neighbor, SnippetRoom(shown.left));
      TotalSizeOne(shown.texts, clip.text);
    }
  }

  lemma {:induction false} SurroundingFits(neighbors: seq<Text>, budget: nat, n: nat)
    requires n <= |neighbors|
    ensures var shown := Surrounding(neighbors, budget, n);
            && shown.left == budget - TotalSize(shown.texts) && shown.left >= 0
            && |shown.texts| <= n && (shown.left > 0 ==> |shown.texts| == n)
  {
    if n > 0 {
      SurroundingFits(neighbors, budget, n - 1);
      ShowOneFits(Surrounding(neighbors, budget, n - 1), neighbors[n - 1], budget);
    }
  }

  lemma {:induction false} SurroundingStops(neighbors: seq<Text>, budget: int, i: nat, n: nat)
    requires i <= n <= |neighbors| && Surrounding(neighbors, budget, i).left <= 0
    ensures Surrounding(neighbors, budget, n) == Surrounding(neighbors, budget, i)
    decreases n
  {
    if i < n {
      SurroundingStops(neighbors, budget, i, n - 1);
    }
  }

  method SurroundingContext(neighbors: seq<Text>, budget: int) returns (surrounding: seq<Text>, complete: bool)
    ensures surrounding == Surrounding(neighbors, budget, |neighbors|).texts
    ensures complete <==> surrounding == neighbors
  {
    surrounding, complete := [], true;
    var left := budget;
    for i := 0 to |neighbors|
      invariant Around(surrounding, left) == Surrounding(neighbors, budget, i) && |surrounding| == i
      invariant complete <==> surrounding == neighbors[..i]
    {
      if left <= 0 {
        SurroundingStops(neighbors, budget, i, |neighbors|);
        return surrounding, false;
      }
      var clip := ClipUtf8(neighbors[i], SnippetRoom(left));
      ClippedFits(neighbors[i], SnippetRoom(left));
      PrefixOne(neighbors, surrounding, clip.text);
      surrounding := surrounding + [clip.text];
      left := left - |Encode(clip.text)|;
      complete := complete && !clip.truncated;
    }
  }

  /** One more message while something is left, none afterwards. */
  predicate GrowsByOne(a: Around, b: Around) {
    if a.left > 0 then |b.texts| == |a.texts| + 1 && b.texts[..|a.texts|] == a.texts else b == a
  }

  ghost predicate Growing(states: seq<Around>) {
    states != [] && states[0].texts == [] && forall k :: 0 <= k < |states| - 1 ==> GrowsByOne(states[k], states[k + 1])
  }

  lemma {:induction false} PrefixesOf(states: seq<Around>, i: nat, n: nat)
    requires Growing(states) && n < |states| && i < |states[n].texts|
    ensures i < n && |states[i].texts| == i && states[i].left > 0
    ensures i + 1 < |states| && states[n].texts[..i + 1] == states[i + 1].texts
    decreases n
  {
    var a, b := states[n - 1], states[n];
    assert GrowsByOne(a, b);
    if i < |a.texts| {
      PrefixesOf(states, i, n - 1);
      assert b.texts[..i + 1] == b.texts[..|a.texts|][..i + 1];
    } else {
      TextsCount(states, n - 1);
      assert b.texts[..|b.texts|] == b.texts;
    }
  }

  lemma {:induction false} TextsCount(states: seq<Around>, n: nat)
    requires Growing(states) && n < |states|
    ensures |states[n].texts| <= n && (states[n].left > 0 ==> |states[n].texts| == n)
  {
    if n > 0 {
      TextsCount(states, n - 1);
      assert GrowsByOne(states[n - 1], states[n]);
    }
  }

  lemma ShowOneGrows(before: Around, neighbor: Text)
    ensures GrowsByOne(before, ShowOne(before, neighbor))
  {
  }

  lemma SurroundingPrefix(neighbors: seq<Text>, budget: nat, i: nat)
    requires i < |Surrounding(neighbors, budget, |neighbors|).texts|
    ensures i < |neighbors| && Surrounding(neighbors, budget, i).left > 0 && |Surrounding(neighbors, budget, i).texts| == i
    ensures Surrounding(neighbors, budget, |neighbors|).texts[..i + 1] == ShowOne(Surrounding(neighbors, budget, i), neighbors[i]).texts
  {
    var n := |neighbors|;
    var states := seq(n + 1, k requires 0 <= k <= n => Surrounding(neighbors, budget, k));
    forall k | 0 <= k < n ensures GrowsByOne(states[k], states[k + 1]) {
      ShowOneGrows(states[k], neighbors[k]);
    }
    PrefixesOf(states, i, n);
  }

  /** The `i`-th surrounding message is the `i`-th neighbour, clipped to 320 bytes or to what those
      before it leave, if that is less; and they stop only when nothing is left. */
  lemma SurroundingShows(neighbors: seq<Text>, budget: nat, i: nat)
    requires i < |neighbors|
    ensures var shown := Surrounding(neighbors, budget, |neighbors|).texts;
            if i < |shown|
            then var left := budget - TotalSize(shown[..i]);
                 left > 0 && shown[i] == Clipped(neighbors[i], if left < 320 then left else 320).text
            else TotalSize(shown) >= budget
  {
    SurroundingFits(neighbors, budget, |neighbors|);
    var shown := Surrounding(neighbors, budget, |neighbors|).texts;
    if i < |shown| {
      SurroundingPrefix(neighbors, budget, i);
      SurroundingFits(neighbors, budget, i);
      ShowsNext(Surrounding(neighbors, budget, i), neighbors[i], shown, i);
    }
  }

  lemma ShowsNext(before: Around, neighbor: Text, shown: seq<Text>, i: nat)
    requires i < |shown| && |before.texts| == i && before.left > 0 && shown[..i + 1] == ShowOne(before, neighbor).texts
    ensures shown[..i] == before.texts && shown[i] == Clipped(neighbor, SnippetRoom(before.left)).text
  {
    assert shown[..i + 1][..i] == shown[..i] && shown[..i + 1][i] == shown[i];
  }

  lemma TotalSizeOne(texts: seq<Text>, next: Text)
    ensures TotalSize(texts + [next]) == TotalSize(texts) + Size(next)
  {
    assert (texts + [next])[..|texts|] == texts;
  }

  lemma PrefixOne(neighbors: seq<Text>, surrounding: seq<Text>, next: Text)
    requires |surrounding| < |neighbors|
    ensures surrounding + [next] == neighbors[..|surrounding| + 1]
            <==> surrounding == neighbors[..|surrounding|] && next == neighbors[|surrounding|]
  {
    var n, longer := |surrounding|, surrounding + [next];
    assert neighbors[..n + 1] == neighbors[..n] + [neighbors[n]];
    assert longer[..n] == surrounding && longer[n] == next;
    assert neighbors[..n + 1][..n] == neighbors[..n] && neighbors[..n + 1][n] == neighbors[n];
  }

  /** The source text and its surroundings together never exceed the configured budget. */
  method ExactSource(raw: Text, neighbors: seq<Text>, budget: nat)
    returns (source: Clip, surrounding: seq<Text>, complete: bool)
    requires budget >= 1
    ensures Size(source.text) + TotalSize(surrounding) <= budget
    ensures source == Clipped(raw, budget)
    ensures surrounding == Surrounding(neighbors, budget - Size(source.text), |neighbors|).texts
    ensures complete <==> surrounding == neighbors
  {
    source := ClipUtf8(raw, budget);
    ClippedFits(raw, budget);
    surrounding, complete := SurroundingContext(neighbors, budget - |Encode(source.text)|);
    SurroundingFits(neighbors, budget - Size(source.text), |neighbors|);
  }
}
