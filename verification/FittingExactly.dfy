/**
 What compaction keeps and what fitting cuts
 (sifter/src/aa_sifter/context/compression.py), said of the positions and the
 characters of the messages.
 */
module FittingExactly {
  import opened ContextFit

  // ----- the turns that are kept

  /** The positions, in order, of the messages that are (or are not) of the system. */
  ghost predicate Places(ms: seq<Message>, at: seq<nat>, system: bool) {
    && (forall k :: 0 <= k < |at| ==> at[k] < |ms| && ms[at[k]].role.System? == system)
    && (forall j, k :: 0 <= j < k < |at| ==> at[j] < at[k])
    && (forall i :: 0 <= i < |ms| && ms[i].role.System? == system ==> i in at)
  }

  ghost predicate Picks(ms: seq<Message>, at: seq<nat>, picked: seq<Message>) {
    |picked| == |at| && forall k :: 0 <= k < |at| ==> at[k] < |ms| && picked[k] == ms[at[k]]
  }

  lemma {:induction false} RoleHasPlaces(ms: seq<Message>, system: bool) returns (at: seq<nat>)
    ensures Places(ms, at, system) && Picks(ms, at, OfRole(ms, system))
  {
    hide Places, Picks, OfRole;
    at := [];
    if ms == [] {
      NoPlaces(system);
    } else {
      var n := |ms| - 1;
      var before := RoleHasPlaces(ms[..n], system);
      assert ms[..n] + [ms[n]] == ms;
      OnePlace(ms[..n], ms[n], before, system);
      OnePick(ms[..n], ms[n], before, OfRole(ms[..n], system));
      LastRole(ms, system);
      at := if ms[n].role.System? == system then before + [n] else before;
    }
  }

  lemma NoPlaces(system: bool)
    ensures Places([], [], system) && Picks([], [], OfRole([], system))
  {
  }

  lemma LastRole(ms: seq<Message>, system: bool)
    requires ms != []
    ensures OfRole(ms, system) == OfRole(ms[..|ms| - 1], system)
        + (if ms[|ms| - 1].role.System? == system then [ms[|ms| - 1]] else [])
    ensures OfRole(ms[..|ms| - 1], system) + [] == OfRole(ms[..|ms| - 1], system)
  {
  }

  lemma OnePlace(ms: seq<Message>, m: Message, at: seq<nat>, system: bool)
    requires Places(ms, at, system)
    ensures Places(ms + [m], if m.role.System? == system then at + [|ms|] else at, system)
  {
    var more := if m.role.System? == system then at + [|ms|] else at;
    forall i | 0 <= i < |ms| + 1 && (ms + [m])[i].role.System? == system ensures i in more {
      if i < |ms| {
        assert i in at;
      } else {
        assert more[|at|] == i;
      }
    }
  }

  lemma OnePick(ms: seq<Message>, m: Message, at: seq<nat>, picked: seq<Message>)
    requires Picks(ms, at, picked)
    ensures Picks(ms + [m], at, picked) && Picks(ms + [m], at + [|ms|], picked + [m])
  {
  }

  /** A summary stands for what is left out. */
  predicate SummaryOf(m: Message, older: seq<Message>) {
    m.role == System && m.content == "Compressed earlier context:\n" + Lines(older)
  }

  function Lines(older: seq<Message>): string {
    if older == [] then ""
    else if |older| == 1 then Line(older[0])
    else Line(older[0]) + "\n" + Lines(older[1..])
  }

  /** The role, and at most 160 characters of the stripped content on one line. */
  function Line(m: Message): string {
    var name := match m.role case System => "system" case User => "user" case Assistant => "assistant" case Tool =>
        "tool";
    var bare := Strip(m.content);
    var shown := if |bare| > 160 then 160 else |bare|;
    name + ": " + seq(shown, i requires 0 <= i < shown <= |bare| => if bare[i] == '\n' then ' ' else bare[i])
  }

  /** Stripping removes white space at both ends, all of it and nothing else. */
  ghost predicate Stripped(text: string, bare: string, front: nat) {
    && front + |bare| <= |text| && bare == text[front..front + |bare|]
    && (forall i :: 0 <= i < front ==> IsSpace(text[i]))
    && (forall i :: front + |bare| <= i < |text| ==> IsSpace(text[i]))
    && (bare != [] ==> !IsSpace(bare[0]) && !IsSpace(bare[|bare| - 1]))
  }

  lemma {:induction false} StripMeans(text: string) returns (front: nat)
    ensures Stripped(text, Strip(text), front)
    decreases |text|
  {
    hide IsSpace;
    front := 0;
    if text != [] {
      if IsSpace(text[0]) {
        front := StripMeans(text[1..]);
        front := front + 1;
      } else if IsSpace(text[|text| - 1]) {
        front := StripMeans(text[..|text| - 1]);
      }
    }
  }

  lemma {:induction false} OneLineAt(text: string)
    ensures |OneLine(text)| == |text|
    ensures forall i :: 0 <= i < |text| ==> OneLine(text)[i] == if text[i] == '\n' then ' ' else text[i]
  {
    if text != [] {
      OneLineAt(text[..|text| - 1]);
    }
  }

  lemma LineIs(m: Message)
    ensures SummaryLine(m) == Line(m)
  {
    OneLineAt(Strip(m.content));
    assert Before(OneLine(Strip(m.content)), 160) == Line(m)[|RoleName(m.role) + ": "|..];
  }

  lemma {:induction false} LinesEnd(older: seq<Message>)
    requires |older| >= 2
    ensures Lines(older) == Lines(older[..|older| - 1]) + "\n" + Line(older[|older| - 1])
  {
    hide Line;
    var n := |older| - 1;
    if n > 1 {
      LinesEnd(older[1..]);
      assert older[1..][..n - 1] == older[..n][1..];
    }
  }

  lemma {:induction false} SummaryIs(older: seq<Message>)
    ensures SummaryText(older) == "Compressed earlier context:\n" + Lines(older)
  {
    hide Line, SummaryLine;
    if older != [] {
      LineIs(older[|older| - 1]);
      if |older| >= 2 {
        SummaryIs(older[..|older| - 1]);
        LinesEnd(older);
      }
    }
  }

  /** What compaction returns: every system message, the summary of the turns that go,
      and the last keepRecent turns, all in order. A keepRecent of zero keeps all. */
  ghost predicate KeptExactly(ms: seq<Message>, keepRecent: nat, system: seq<nat>, turns: seq<nat>, r: seq<Message>) {
    var gone := Gone(|turns|, keepRecent);
    var summaries := if gone > 0 then 1 else 0;
    && Places(ms, system, true) && Places(ms, turns, false)
    && |r| == |system| + summaries + |turns| - gone
    && Picks(ms, system, r[..|system|])
    && (gone > 0 ==> exists older :: Picks(ms, turns[..gone], older) && SummaryOf(r[|system|], older))
    && Picks(ms, turns[gone..], r[|system| + summaries..])
  }

  lemma CompressedExactly(ms: seq<Message>, maxTokens: int, keepRecent: nat)
    ensures Total(ms) <= maxTokens ==> Compressed(ms, maxTokens, keepRecent) == ms
    ensures Total(ms) > maxTokens ==>
              exists system, turns :: KeptExactly(ms, keepRecent, system, turns, Compressed(ms, maxTokens, keepRecent))
  {
    if Total(ms) > maxTokens {
      var system := RoleHasPlaces(ms, true);
      var turns := RoleHasPlaces(ms, false);
      hide KeptExactly, Places, Picks, OfRole, Total;
      CompressedKeeps(ms, maxTokens, keepRecent, system, turns);
    }
  }

  function Gone(turns: nat, keepRecent: nat): nat {
    if 0 < keepRecent < turns then turns - keepRecent else 0
  }

  lemma CompressedIs(ms: seq<Message>, maxTokens: int, keepRecent: nat)
    requires Total(ms) > maxTokens && (ms == [] ==> OfRole(ms, true) == OfRole(ms, false) == [])
    ensures var first, rest := OfRole(ms, true), OfRole(ms, false);
            var gone := Gone(|rest|, keepRecent);
            Compressed(ms, maxTokens, keepRecent)
            == (if gone > 0 then first + [Message(System, SummaryText(rest[..gone]))] + rest[gone..] else first + rest)
  {
    hide OfRole, Total, SummaryText;
    var rest := OfRole(ms, false);
    var gone := Gone(|rest|, keepRecent);
    assert From(rest, 0 - keepRecent) == rest[gone..];
    assert gone > 0 ==> Before(rest, 0 - keepRecent) == rest[..gone];
    assert rest[0..] == rest;
  }

  lemma CompressedKeeps(ms: seq<Message>, maxTokens: int, keepRecent: nat, system: seq<nat>, turns: seq<nat>)
    requires Total(ms) > maxTokens
    requires Places(ms, system, true) && Picks(ms, system, OfRole(ms, true))
    requires Places(ms, turns, false) && Picks(ms, turns, OfRole(ms, false))
    ensures KeptExactly(ms, keepRecent, system, turns, Compressed(ms, maxTokens, keepRecent))
  {
    hide Places, Picks, Total, SummaryText, Lines, Compressed, KeptExactly;
    var first, rest := OfRole(ms, true), OfRole(ms, false);
    CompressedIs(ms, maxTokens, keepRecent);
    var gone := Gone(|rest|, keepRecent);
    hide OfRole;
    if gone > 0 {
      SummaryIs(rest[..gone]);
      SomeGone(ms, keepRecent, system, turns, first, rest, Message(System, SummaryText(rest[..gone])));
    } else {
      NoneGone(ms, keepRecent, system, turns, first, rest);
    }
  }

  lemma NoneGone(ms: seq<Message>, keepRecent: nat, system: seq<nat>, turns: seq<nat>, first: seq<Message>,
      rest: seq<Message>)
    requires Places(ms, system, true) && Picks(ms, system, first)
    requires Places(ms, turns, false) && Picks(ms, turns, rest) && Gone(|rest|, keepRecent) == 0
    ensures KeptExactly(ms, keepRecent, system, turns, first + rest)
  {
    hide Places;
    var r := first + rest;
    assert r[..|system|] == first && r[|system| + 0..] == rest && turns[0..] == turns;
    hide Picks;
  }

  lemma SomeGone(ms: seq<Message>, keepRecent: nat, system: seq<nat>, turns: seq<nat>, first: seq<Message>,
      rest: seq<Message>, summary: Message)
    requires Places(ms, system, true) && Picks(ms, system, first)
    requires Places(ms, turns, false) && Picks(ms, turns, rest)
    requires var gone := Gone(|rest|, keepRecent); gone > 0 && SummaryOf(summary, rest[..gone])
    ensures KeptExactly(ms, keepRecent, system, turns,
                first + [summary] + rest[Gone(|rest|, keepRecent)..])
  {
    hide Places, SummaryOf;
    var gone := Gone(|rest|, keepRecent);
    var r := first + [summary] + rest[gone..];
    assert r[..|system|] == first && r[|system|] == summary && r[|system| + 1..] == rest[gone..];
    PicksParts(ms, turns, rest, gone);
    hide Picks;
  }

  lemma PicksParts(ms: seq<Message>, at: seq<nat>, picked: seq<Message>, n: nat)
    requires Picks(ms, at, picked) && n <= |at|
    ensures Picks(ms, at[..n], picked[..n]) && Picks(ms, at[n..], picked[n..])
  {
  }

  // ----- what is cut

  function Head(n: int): int {
    4 * n * 7 / 10
  }

  function Tail(n: int): int {
    4 * n - Head(n)
  }

  lemma HeadsGrow(m: nat, n: nat)
    requires m <= n
    ensures 0 <= Head(m) <= Head(n) && 0 <= Tail(m) <= Tail(n) && Head(n) + Tail(n) == 4 * n
    ensures n >= 1 ==> Tail(n) >= 1
  {
  }

  /** The middle of a text replaced by the marker. */
  function Middle(text: string, head: nat, tail: nat): string
    requires head <= |text| && tail <= |text|
  {
    text[..head] + "\n...[truncated]...\n" + text[|text| - tail..]
  }

  /** A text reduced to n tokens has lost its middle: its first 7/10 and its last
      3/10 of 4(n - 4) characters stay, with the marker between. */
  predicate Cut(text: string, cut: string) {
    var n := Tokens(cut) - 4;
    && 1 <= n < Tokens(text) && 0 <= Head(n) <= |text| && 0 <= Tail(n) <= |text|
    && cut == Middle(text, Head(n), Tail(n))
  }

  lemma EndsAre(text: string, head: nat, tail: int)
    requires head <= |text| && 1 <= tail <= |text|
    ensures Before(text, head) == text[..head] && From(text, -tail) == text[|text| - tail..]
  {
  }

  lemma TruncateIs(text: string, m: int)
    requires 1 <= m < Tokens(text)
    ensures 0 <= Head(m) && 1 <= Tail(m) && Head(m) + Tail(m) <= |text|
    ensures Truncate(text, m) == Middle(text, Head(m), Tail(m))
  {
    HeadsGrow(m, m);
    assert SevenTenths(m * 4) == Head(m) && m * 4 - Head(m) == Tail(m) && m * 4 <= |text|;
    hide Head, Tail, SevenTenths, Before, From;
    EndsAre(text, Head(m), Tail(m));
  }

  lemma TruncateCuts(text: string, m: int)
    requires 1 <= m < Tokens(text)
    ensures Cut(text, Truncate(text, m)) && Tokens(Truncate(text, m)) == m + 4
  {
    hide Head, Tail, Truncate, Middle;
    TruncateIs(text, m);
    TruncatedTokens(text, m);
  }

  lemma MiddleAgain(text: string, head: nat, tail: nat, head': nat, tail': nat)
    requires head' <= head && tail' <= tail && head <= |text| && tail <= |text|
    ensures |Middle(text, head, tail)| == head + 19 + tail
    ensures Middle(Middle(text, head, tail), head', tail') == Middle(text, head', tail')
  {
    var once := Middle(text, head, tail);
    assert once[..head'] == text[..head'];
    assert once[|once| - tail'..] == text[|text| - tail'..];
  }

  /** Cutting a text twice is cutting it once. */
  lemma CutAgain(text: string, once: string, m: int)
    requires Cut(text, once) && 4 <= m && m + 4 <= Tokens(once)
    ensures Cut(text, Truncate(once, m)) && Tokens(Truncate(once, m)) == m + 4
  {
    hide Head, Tail, Middle, Truncate, Tokens;
    var n := Tokens(once) - 4;
    HeadsGrow(m, n);
    TruncateIs(once, m);
    TruncateCuts(once, m);
    MiddleAgain(text, Head(n), Tail(n), Head(m), Tail(m));
  }

  predicate CutOrKept(before: Message, after: Message) {
    after == before
        || (after.role == before.role && LEAST <= Tokens(after.content) && Cut(before.content, after.content))
  }

  ghost predicate AllCutOrKept(before: seq<Message>, after: seq<Message>) {
    |after| == |before| && forall i :: 0 <= i < |before| ==> CutOrKept(before[i], after[i])
  }

  /** Nobody is cut before those with more: whatever was cut had been the largest. */
  ghost predicate LargestFirst(before: seq<Message>, after: seq<Message>) {
    |after| == |before|
    && forall i, j :: 0 <= i < |before| && 0 <= j < |before| && after[j] != before[j] ==>
        TwiceAsMuch(after[i], after[j])
  }

  /** Halving the second left it with at least half of the first. */
  predicate TwiceAsMuch(a: Message, cut: Message) {
    Tokens(a.content) <= 2 * (Tokens(cut.content) - 4) + 1
  }

  lemma HalvingCuts(m: Message)
    requires Tokens(m.content) > LEAST
    ensures CutOrKept(m, Halved(m)) && Tokens(Halved(m).content) == Tokens(m.content) / 2 + 4
  {
    hide Truncate, Cut;
    TruncateCuts(m.content, Tokens(m.content) / 2);
  }

  lemma HalvingCutsOn(original: Message, m: Message)
    requires CutOrKept(original, m) && Tokens(m.content) > LEAST
    ensures CutOrKept(original, Halved(m))
  {
    hide Truncate, Cut;
    if m == original {
      HalvingCuts(m);
    } else {
      CutAgain(original.content, m.content, Tokens(m.content) / 2);
    }
  }

  /** The loop is at a list whose messages are cut from the originals. */
  lemma {:induction false} ShrinkCuts(original: seq<Message>, ms: seq<Message>, maxTokens: int)
    requires AllCutOrKept(original, ms)
    ensures AllCutOrKept(original, Shrunk(ms, maxTokens))
    decreases Total(ms)
  {
    hide CutOrKept, Truncate, Halved;
    if ms != [] && Total(ms) > maxTokens {
      var i := LargestIndex(ms);
      HalvedTokens(ms[i]);
      if Tokens(ms[i].content) > LEAST {
        TotalUpdate(ms, i, Halved(ms[i]));
        HalvingCutsOn(original[i], ms[i]);
        ShrinkCuts(original, ms[i := Halved(ms[i])], maxTokens);
      }
    }
  }

  lemma {:induction false} ShrinkLargestFirst(ms: seq<Message>, maxTokens: int)
    ensures LargestFirst(ms, Shrunk(ms, maxTokens))
    decreases Total(ms)
  {
    hide Truncate, Halved;
    if ms != [] && Total(ms) > maxTokens {
      var i := LargestIndex(ms);
      HalvedTokens(ms[i]);
      if Tokens(ms[i].content) > LEAST {
        TotalUpdate(ms, i, Halved(ms[i]));
        var next := ms[i := Halved(ms[i])];
        ShrinkLargestFirst(next, maxTokens);
        ShrinkTrims(next, maxTokens);
        OneHalved(ms, i, next, Shrunk(next, maxTokens));
      }
    }
  }

  lemma OneHalved(ms: seq<Message>, i: nat, next: seq<Message>, after: seq<Message>)
    requires i < |ms| && Tokens(ms[i].content) > LEAST && next == ms[i := Halved(ms[i])]
    requires forall j :: 0 <= j < |ms| ==> Tokens(ms[j].content) <= Tokens(ms[i].content)
    requires AllTrimmed(next, after) && LargestFirst(next, after)
    ensures LargestFirst(ms, after)
  {
    hide Halved;
    HalvingCuts(ms[i]);
    forall k, j | 0 <= k < |ms| && 0 <= j < |ms| && after[j] != ms[j] ensures TwiceAsMuch(after[k], after[j]) {
      if after[j] == next[j] {
        assert j == i && Trimmed(next[k], after[k]);
        assert Tokens(after[k].content) <= Tokens(ms[i].content);
      }
    }
  }

  /** One halving earlier the budget was still passed. */
  ghost predicate StoppedInTime(maxTokens: int, before: seq<Message>, after: seq<Message>) {
    Total(before) > maxTokens && exists i :: HalvedAt(before, i, after)
  }

  /** A largest message lost half of its tokens, and the others stay. */
  predicate HalvedAt(before: seq<Message>, i: nat, after: seq<Message>) {
    && |after| == |before| && i < |before|
    && (forall j :: 0 <= j < |before| ==> Tokens(before[j].content) <= Tokens(before[i].content))
    && (forall j :: 0 <= j < |before| && j != i ==> after[j] == before[j])
    && CutOrKept(before[i], after[i]) && Tokens(after[i].content) == Tokens(before[i].content) / 2 + 4
  }

  lemma {:induction false} ShrinkStopsInTime(ms: seq<Message>, maxTokens: int)
    requires Shrunk(ms, maxTokens) != ms
    ensures exists before :: StoppedInTime(maxTokens, before, Shrunk(ms, maxTokens))
    decreases Total(ms)
  {
    hide Truncate, Halved, CutOrKept;
    var i := LargestIndex(ms);
    HalvedTokens(ms[i]);
    TotalUpdate(ms, i, Halved(ms[i]));
    var next := ms[i := Halved(ms[i])];
    if Shrunk(next, maxTokens) == next {
      HalvingCuts(ms[i]);
      assert HalvedAt(ms, i, next);
      assert StoppedInTime(maxTokens, ms, next);
    } else {
      ShrinkStopsInTime(next, maxTokens);
    }
  }

  /** What fitting does to the compacted messages: each stays, or is cut once as above
      and keeps at least 8 tokens, the largest first; it stops as soon as the budget is
      met, so one halving before it was not. */
  lemma FittedExactly(ms: seq<Message>, maxTokens: int, keepRecent: nat)
    ensures AllCutOrKept(Compressed(ms, maxTokens, keepRecent), Fitted(ms, maxTokens, keepRecent))
    ensures LargestFirst(Compressed(ms, maxTokens, keepRecent), Fitted(ms, maxTokens, keepRecent))
    ensures Total(Compressed(ms, maxTokens, keepRecent)) <= maxTokens ==>
              Fitted(ms, maxTokens, keepRecent) == Compressed(ms, maxTokens, keepRecent)
    ensures Fitted(ms, maxTokens, keepRecent) != Compressed(ms, maxTokens, keepRecent) ==>
              exists before :: StoppedInTime(maxTokens, before, Fitted(ms, maxTokens, keepRecent))
  {
    hide Compressed, Cut, Truncate, Halved;
    var compacted := Compressed(ms, maxTokens, keepRecent);
    ShrinkCuts(compacted, compacted, maxTokens);
    ShrinkLargestFirst(compacted, maxTokens);
    if Shrunk(compacted, maxTokens) != compacted {
      ShrinkStopsInTime(compacted, maxTokens);
    }
  }

  // ----- the budget of a model

  /** What the answer may take is left free, and never less than 1024 for the rest. */
  lemma BudgetLeavesRoom(limit: int, maxOutput: nat)
    ensures limit - maxOutput >= 1024 ==> Budget(limit, maxOutput) + maxOutput == limit
    ensures limit - maxOutput < 1024 ==> Budget(limit, maxOutput) == 1024
  {
  }
}
