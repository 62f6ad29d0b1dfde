/**
 Fitting messages into a token budget (sifter/src/aa_sifter/context/compression.py,
 and its caller _fit_to_context in sifter/src/aa_sifter/app.py).
 */
module ContextFit {

  datatype Role = System | User | Assistant | Tool

  datatype Message = Message(role: Role, content: string)

  const MARK := "\n...[truncated]...\n"

  /** No message can be reduced below this many tokens. */
  const LEAST := 8

  function Tokens(text: string): (n: nat)
    ensures n >= 1
  {
    if |text| / 4 > 1 then |text| / 4 else 1
  }

  function Total(ms: seq<Message>): nat {
    if ms == [] then 0 else Total(ms[..|ms| - 1]) + Tokens(ms[|ms| - 1].content)
  }

  // ----- slices as Python takes them

  function Before<T>(s: seq<T>, k: int): seq<T> {
    if k >= |s| then s else if k >= 0 then s[..k] else if |s| + k >= 0 then s[..|s| + k] else []
  }

  function From<T>(s: seq<T>, k: int): seq<T> {
    if k >= |s| then [] else if k >= 0 then s[k..] else if |s| + k >= 0 then s[|s| + k..] else s
  }

  /** int(n * 0.7): toward zero. */
  function SevenTenths(n: int): int {
    if n >= 0 then n * 7 / 10 else -(-n * 7 / 10)
  }

  // ----- truncate

  function Truncate(text: string, maxTokens: int): string {
    if Tokens(text) <= maxTokens then text
    else
      var maxChars := maxTokens * 4;
      var head := SevenTenths(maxChars);
      var tail := maxChars - head;
      Before(text, head) + MARK + From(text, -tail)
  }

  /** Truncating to m tokens gives exactly m + 4: the marker is not paid for. */
  lemma TruncatedTokens(text: string, m: int)
    requires m >= 1
    ensures Tokens(Truncate(text, m)) == if Tokens(text) <= m then Tokens(text) else m + 4
  {
    if Tokens(text) > m {
      var head := SevenTenths(m * 4);
      assert 0 <= head < m * 4 <= |text|;
      assert |MARK| == 19;
      assert |Truncate(text, m)| == m * 4 + 19;
    }
  }

  /** Both ends of the text survive around the marker. */
  lemma TruncatedEnds(text: string, m: int, i: nat)
    requires 1 <= m < Tokens(text) && i < |Truncate(text, m)|
    ensures |Truncate(text, m)| == 4 * m + 19
    ensures i < 4 * m * 7 / 10 ==> Truncate(text, m)[i] == text[i]
    ensures i >= 4 * m * 7 / 10 + 19 ==> Truncate(text, m)[i] == text[|text| - (4 * m + 19 - i)]
  {
    var head := 4 * m * 7 / 10;
    assert |MARK| == 19;
  }

  /** With a budget of zero the tail slice is the whole text: truncating grows it. */
  lemma TruncatingToZeroGrows(text: string)
    ensures Truncate(text, 0) == MARK + text
  {
    assert From(text, 0) == text;
  }

  // ----- compress_messages

  function OfRole(ms: seq<Message>, system: bool): seq<Message> {
    if ms == [] then []
    else
      var last := ms[|ms| - 1];
      OfRole(ms[..|ms| - 1], system) + if last.role.System? == system then [last] else []
  }

  predicate IsSpace(c: char) {
    || c == ' ' || '\t' <= c <= '\r' || '\U{1c}' <= c <= '\U{1f}' || c == '\U{85}' || c == '\U{a0}'
    || c == '\U{1680}' || '\U{2000}' <= c <= '\U{200a}' || c == '\U{2028}' || c == '\U{2029}'
    || c == '\U{202f}' || c == '\U{205f}' || c == '\U{3000}'
  }

  function Strip(text: string): string {
    if text == [] then []
    else if IsSpace(text[0]) then Strip(text[1..])
    else if IsSpace(text[|text| - 1]) then Strip(text[..|text| - 1])
    else text
  }

  function OneLine(text: string): string {
    if text == [] then []
    else OneLine(text[..|text| - 1]) + [if text[|text| - 1] == '\n' then ' ' else text[|text| - 1]]
  }

  function RoleName(role: Role): string {
    match role
    case System => "system"
    case User => "user"
    case Assistant => "assistant"
    case Tool => "tool"
  }

  function SummaryLine(m: Message): string {
    RoleName(m.role) + ": " + Before(OneLine(Strip(m.content)), 160)
  }

  function SummaryText(older: seq<Message>): string {
    if older == [] then "Compressed earlier context:\n"
    else if |older| == 1 then "Compressed earlier context:\n" + SummaryLine(older[0])
    else SummaryText(older[..|older| - 1]) + "\n" + SummaryLine(older[|older| - 1])
  }

  function Compressed(ms: seq<Message>, maxTokens: int, keepRecent: nat): seq<Message> {
    if ms == [] then []
    else if Total(ms) <= maxTokens then ms
    else
      var system, rest := OfRole(ms, true), OfRole(ms, false);
      var recent := From(rest, 0 - keepRecent);
      var older := if |rest| > keepRecent then Before(rest, 0 - keepRecent) else [];
      if older == [] then system + recent
      else system + [Message(System, SummaryText(older))] + recent
  }

  method Compress(ms: seq<Message>, maxTokens: int, keepRecent: nat) returns (r: seq<Message>)
    ensures r == Compressed(ms, maxTokens, keepRecent)
  {
    hide OfRole, Total, From, Before, SummaryLine;
    if |ms| == 0 {
      return [];
    }
    var total := Total(ms);
    if total <= maxTokens {
      return ms;
    }
    var system, rest := OfRole(ms, true), OfRole(ms, false);
    var recent := From(rest, 0 - keepRecent);
    var older := if |rest| > keepRecent then Before(rest, 0 - keepRecent) else [];
    if |older| == 0 {
      return system + recent;
    }
    var summary := "Compressed earlier context:\n";
    for i := 0 to |older|
      invariant summary == SummaryText(older[..i])
    {
      summary := summary + (if i == 0 then "" else "\n") + SummaryLine(older[i]);
      assert older[..i + 1][..i] == older[..i];
    }
    assert older[..|older|] == older;
    return system + [Message(System, summary)] + recent;
  }

  // ----- fit_messages

  /** The first of the largest messages. */
  function LargestIndex(ms: seq<Message>): (i: nat)
    requires ms != []
    ensures i < |ms| && forall j :: 0 <= j < |ms| ==> Tokens(ms[j].content) <= Tokens(ms[i].content)
    ensures forall j :: 0 <= j < i ==> Tokens(ms[j].content) < Tokens(ms[i].content)
  {
    if |ms| == 1 then 0
    else
      var i := LargestIndex(ms[..|ms| - 1]);
      if Tokens(ms[|ms| - 1].content) > Tokens(ms[i].content) then |ms| - 1 else i
  }

  function Halved(m: Message): Message {
    var current := Tokens(m.content);
    m.(content := Truncate(m.content, if current / 2 > 1 then current / 2 else 1))
  }

  lemma HalvedTokens(m: Message)
    ensures var c := Tokens(m.content);
            Tokens(Halved(m).content) == if c <= 1 then 1 else c / 2 + 4
    ensures Tokens(m.content) > LEAST ==> LEAST <= Tokens(Halved(m).content) < Tokens(m.content)
    ensures 1 < Tokens(m.content) <= LEAST ==> Tokens(Halved(m).content) >= Tokens(m.content)
  {
    var c := Tokens(m.content);
    TruncatedTokens(m.content, if c / 2 > 1 then c / 2 else 1);
  }

  lemma {:induction false} TotalUpdate(ms: seq<Message>, i: nat, m: Message)
    requires i < |ms|
    ensures Total(ms[i := m]) == Total(ms) - Tokens(ms[i].content) + Tokens(m.content)
    decreases |ms|
  {
    var init := ms[..|ms| - 1];
    if i == |ms| - 1 {
      assert ms[i := m][..|ms| - 1] == init;
    } else {
      TotalUpdate(init, i, m);
      assert ms[i := m][..|ms| - 1] == init[i := m];
    }
  }

  /** The halving loop. */
  function Shrunk(ms: seq<Message>, maxTokens: int): seq<Message>
    decreases Total(ms)
  {
    if ms == [] || Total(ms) <= maxTokens then ms
    else
      var i := LargestIndex(ms);
      if Tokens(ms[i].content) <= 1 || Tokens(Halved(ms[i]).content) >= Tokens(ms[i].content) then ms
      else
        TotalUpdate(ms, i, Halved(ms[i]));
        Shrunk(ms[i := Halved(ms[i])], maxTokens)
  }

  function Fitted(ms: seq<Message>, maxTokens: int, keepRecent: nat): seq<Message> {
    Shrunk(Compressed(ms, maxTokens, keepRecent), maxTokens)
  }

  method FitMessages(ms: seq<Message>, maxTokens: int, keepRecent: nat) returns (r: seq<Message>)
    ensures r == Fitted(ms, maxTokens, keepRecent)
  {
    var compacted := Compress(ms, maxTokens, keepRecent);
    if Total(compacted) <= maxTokens {
      return compacted;
    }
    r := compacted;
    while r != [] && Total(r) > maxTokens
      invariant Shrunk(r, maxTokens) == Shrunk(compacted, maxTokens)
      decreases Total(r)
    {
      var index := LargestIndex(r);
      var current := Tokens(r[index].content);
      if current <= 1 {
        break;
      }
      var reduced := Truncate(r[index].content, if current / 2 > 1 then current / 2 else 1);
      if Tokens(reduced) >= current {
        break;
      }
      TotalUpdate(r, index, Halved(r[index]));
      r := r[index := r[index].(content := reduced)];
    }
  }

  // ----- what fitting gives

  /** A message that was reduced still has at least LEAST tokens, and only
      messages above LEAST are ever reduced. */
  ghost predicate Trimmed(before: Message, after: Message) {
    after == before ||
    (after.role == before.role && LEAST <= Tokens(after.content) < Tokens(before.content))
  }

  ghost predicate AllTrimmed(before: seq<Message>, after: seq<Message>) {
    |after| == |before| && forall i :: 0 <= i < |before| ==> Trimmed(before[i], after[i])
  }

  lemma {:induction false} ShrinkTrims(ms: seq<Message>, maxTokens: int)
    ensures AllTrimmed(ms, Shrunk(ms, maxTokens))
    ensures Total(Shrunk(ms, maxTokens)) <= maxTokens ||
            forall m :: m in Shrunk(ms, maxTokens) ==> Tokens(m.content) <= LEAST
    decreases Total(ms)
  {
    if ms != [] && Total(ms) > maxTokens {
      var i := LargestIndex(ms);
      HalvedTokens(ms[i]);
      if Tokens(ms[i].content) > LEAST {
        TotalUpdate(ms, i, Halved(ms[i]));
        var next := ms[i := Halved(ms[i])];
        ShrinkTrims(next, maxTokens);
        forall j | 0 <= j < |ms| ensures Trimmed(ms[j], Shrunk(next, maxTokens)[j]) {
          assert Trimmed(next[j], Shrunk(next, maxTokens)[j]);
        }
      }
    }
  }

  /** What the messages come to when each is reduced as far as it goes. */
  function Floor(ms: seq<Message>): nat {
    if ms == [] then 0
    else Floor(ms[..|ms| - 1]) + (if Tokens(ms[|ms| - 1].content) < LEAST then Tokens(ms[|ms| - 1].content) else LEAST)
  }

  lemma {:induction false} FloorBounds(ms: seq<Message>)
    ensures Floor(ms) <= Total(ms) && Floor(ms) <= LEAST * |ms|
    ensures (forall m :: m in ms ==> Tokens(m.content) <= LEAST) ==> Floor(ms) == Total(ms)
  {
    if ms != [] {
      FloorBounds(ms[..|ms| - 1]);
      assert ms[|ms| - 1] in ms && forall m :: m in ms[..|ms| - 1] ==> m in ms;
    }
  }

  lemma {:induction false} TrimmingKeepsFloor(before: seq<Message>, after: seq<Message>)
    requires AllTrimmed(before, after)
    ensures Floor(after) == Floor(before)
  {
    if before != [] {
      var n := |before| - 1;
      assert Trimmed(before[n], after[n]);
      forall i | 0 <= i < n ensures Trimmed(before[..n][i], after[..n][i]) {
        assert Trimmed(before[i], after[i]);
      }
      TrimmingKeepsFloor(before[..n], after[..n]);
    }
  }

  /** The budget is met exactly when what cannot be reduced fits into it. */
  lemma FitsExactly(ms: seq<Message>, maxTokens: int, keepRecent: nat)
    ensures Total(Fitted(ms, maxTokens, keepRecent)) <= maxTokens <==>
            Floor(Compressed(ms, maxTokens, keepRecent)) <= maxTokens
  {
    var compacted := Compressed(ms, maxTokens, keepRecent);
    var r := Shrunk(compacted, maxTokens);
    ShrinkTrims(compacted, maxTokens);
    TrimmingKeepsFloor(compacted, r);
    FloorBounds(r);
  }

  /** Hence the bound that always holds. */
  lemma FittedBound(ms: seq<Message>, maxTokens: int, keepRecent: nat)
    ensures Total(Fitted(ms, maxTokens, keepRecent)) <= (if maxTokens > LEAST * |ms| then maxTokens else LEAST * |ms|)
  {
    var compacted := Compressed(ms, maxTokens, keepRecent);
    var r := Shrunk(compacted, maxTokens);
    ShrinkTrims(compacted, maxTokens);
    FloorBounds(r);
    CompressedSize(ms, maxTokens, keepRecent);
  }

  lemma {:induction false} OfRoleFacts(ms: seq<Message>, system: bool)
    ensures |OfRole(ms, system)| <= |ms|
    ensures forall i :: 0 <= i < |OfRole(ms, system)| ==>
            OfRole(ms, system)[i].role.System? == system && OfRole(ms, system)[i] in ms
  {
    if ms != [] {
      OfRoleFacts(ms[..|ms| - 1], system);
    }
  }

  lemma {:induction false} RolesPartition(ms: seq<Message>)
    ensures |OfRole(ms, true)| + |OfRole(ms, false)| == |ms|
  {
    if ms != [] {
      RolesPartition(ms[..|ms| - 1]);
    }
  }

  /** Compaction never adds messages, and otherwise keeps the system messages, at
      most one summary and the recent turns. */
  lemma CompressedSize(ms: seq<Message>, maxTokens: int, keepRecent: nat)
    ensures |Compressed(ms, maxTokens, keepRecent)| <= |ms|
    ensures Total(ms) > maxTokens ==>
            |Compressed(ms, maxTokens, keepRecent)| <= |OfRole(ms, true)| + 1
                + (if keepRecent > 0 then keepRecent else |ms|)
  {
    RolesPartition(ms);
  }

  // ----- fitting twice

  lemma {:induction false} OfRoleConcat(a: seq<Message>, b: seq<Message>, system: bool)
    ensures OfRole(a + b, system) == OfRole(a, system) + OfRole(b, system)
  {
    if b == [] {
      assert a + b == a;
    } else {
      var init, last := b[..|b| - 1], b[|b| - 1];
      OfRoleConcat(a, init, system);
      assert (a + b)[..|a + b| - 1] == a + init;
    }
  }

  lemma {:induction false} OfRoleUniform(ms: seq<Message>, system: bool)
    requires forall m :: m in ms ==> m.role.System? == system
    ensures OfRole(ms, system) == ms && OfRole(ms, !system) == []
  {
    if ms != [] {
      assert ms[|ms| - 1] in ms;
      OfRoleUniform(ms[..|ms| - 1], system);
      assert ms == ms[..|ms| - 1] + [ms[|ms| - 1]];
    }
  }

  /** System messages first, and no more turns than are kept anyway. */
  ghost predicate Compact(ms: seq<Message>, keepRecent: nat) {
    exists n: nat :: SplitsAt(ms, n, keepRecent)
  }

  ghost predicate SplitsAt(ms: seq<Message>, n: nat, keepRecent: nat) {
    && n <= |ms|
    && (forall i :: 0 <= i < n ==> ms[i].role.System?)
    && (forall i :: n <= i < |ms| ==> !ms[i].role.System?)
    && (keepRecent > 0 ==> |ms| - n <= keepRecent)
  }

  lemma CompressedIsCompact(ms: seq<Message>, maxTokens: int, keepRecent: nat)
    requires Total(ms) > maxTokens
    ensures Compact(Compressed(ms, maxTokens, keepRecent), keepRecent)
  {
    if ms == [] {
      assert SplitsAt(ms, 0, keepRecent);
    } else {
      var system, rest := OfRole(ms, true), OfRole(ms, false);
      OfRoleFacts(ms, true);
      OfRoleFacts(ms, false);
      var recent := From(rest, 0 - keepRecent);
      var older := if |rest| > keepRecent then Before(rest, 0 - keepRecent) else [];
        assert keepRecent > 0 ==> |recent| <= keepRecent;
      hide SplitsAt, OfRole, Compact, Total, SummaryText, From, Before;
      if older == [] {
        Joined(system, recent, keepRecent);
      } else {
        Joined(system + [Message(System, SummaryText(older))], recent, keepRecent);
      }
    }
  }

  lemma Joined(front: seq<Message>, recent: seq<Message>, keepRecent: nat)
    requires (forall i :: 0 <= i < |front| ==> front[i].role.System?)
             && (forall i :: 0 <= i < |recent| ==> !recent[i].role.System?)
    requires keepRecent > 0 ==> |recent| <= keepRecent
    ensures Compact(front + recent, keepRecent)
  {
    assert SplitsAt(front + recent, |front|, keepRecent);
  }

  lemma CompactParts(ms: seq<Message>, keepRecent: nat) returns (n: nat)
    requires Compact(ms, keepRecent)
    ensures n <= |ms| && OfRole(ms, true) == ms[..n] && OfRole(ms, false) == ms[n..]
            && (keepRecent > 0 ==> |ms| - n <= keepRecent)
  {
    n :| SplitsAt(ms, n, keepRecent);
    var system, rest := ms[..n], ms[n..];
    assert ms == system + rest;
    hide OfRole;
    OfRoleConcat(system, rest, true);
    OfRoleConcat(system, rest, false);
    OfRoleUniform(system, true);
    OfRoleUniform(rest, false);
  }

  lemma KeepsAll(rest: seq<Message>, keepRecent: nat)
    requires keepRecent > 0 ==> |rest| <= keepRecent
    ensures From(rest, 0 - keepRecent) == rest
    ensures |rest| > keepRecent ==> Before(rest, 0 - keepRecent) == []
  {
  }

  lemma CompactStays(ms: seq<Message>, maxTokens: int, keepRecent: nat)
    requires Compact(ms, keepRecent)
    ensures Compressed(ms, maxTokens, keepRecent) == ms
  {
    var n := CompactParts(ms, keepRecent);
    var system, rest := OfRole(ms, true), OfRole(ms, false);
    assert ms == system + rest;
    KeepsAll(rest, keepRecent);
    hide OfRole, Compact, Total, SummaryText, From, Before;
  }

  lemma TrimmedCompact(before: seq<Message>, after: seq<Message>, keepRecent: nat)
    requires AllTrimmed(before, after) && Compact(before, keepRecent)
    ensures Compact(after, keepRecent)
  {
    var n: nat :| SplitsAt(before, n, keepRecent);
    forall i | 0 <= i < |after| ensures after[i].role == before[i].role {
      assert Trimmed(before[i], after[i]);
    }
    assert SplitsAt(after, n, keepRecent);
  }

  lemma ShrunkStays(ms: seq<Message>, maxTokens: int)
    requires Total(ms) <= maxTokens || forall m :: m in ms ==> Tokens(m.content) <= LEAST
    ensures Shrunk(ms, maxTokens) == ms
  {
    if ms != [] && Total(ms) > maxTokens {
      var i := LargestIndex(ms);
      assert ms[i] in ms;
      HalvedTokens(ms[i]);
    }
  }

  /** Fitting a fitted list changes nothing. */
  lemma FittingAgainChangesNothing(ms: seq<Message>, maxTokens: int, keepRecent: nat)
    ensures Fitted(Fitted(ms, maxTokens, keepRecent), maxTokens, keepRecent) == Fitted(ms, maxTokens, keepRecent)
  {
    var compacted := Compressed(ms, maxTokens, keepRecent);
    var r := Fitted(ms, maxTokens, keepRecent);
    ShrinkTrims(compacted, maxTokens);
    ShrunkStays(r, maxTokens);
    if Total(r) <= maxTokens {
      assert Compressed(r, maxTokens, keepRecent) == r;
    } else {
      if Total(ms) <= maxTokens { ShrunkStays(ms, maxTokens); }
      hide *;
      CompressedIsCompact(ms, maxTokens, keepRecent);
      TrimmedCompact(compacted, r, keepRecent);
      CompactStays(r, maxTokens, keepRecent);
    }
  }

  // ----- _fit_to_context

  const KEEP_RECENT := 6

  function Budget(limit: int, maxOutput: int): (b: int)
    ensures b >= 1024
  {
    var left := limit - if maxOutput > 0 then maxOutput else 0;
    if left > 1024 then left else 1024
  }

  method FitToContext(ms: seq<Message>, limit: int, maxOutput: int) returns (r: seq<Message>)
    ensures limit <= 0 ==> r == ms
    ensures limit > 0 ==> r == Fitted(ms, Budget(limit, maxOutput), KEEP_RECENT)
    ensures limit > 0 && |OfRole(ms, true)| <= 121 ==> Total(r) <= Budget(limit, maxOutput)
  {
    if limit <= 0 {
      return ms;
    }
    r := FitMessages(ms, Budget(limit, maxOutput), KEEP_RECENT);
    if |OfRole(ms, true)| <= 121 {
      OutboundFits(ms, Budget(limit, maxOutput));
    }
  }

  /** With at most 121 system messages every budget of 1024 or more is met. */
  lemma OutboundFits(ms: seq<Message>, budget: int)
    requires budget >= 1024 && |OfRole(ms, true)| <= 121
    ensures Total(Fitted(ms, budget, KEEP_RECENT)) <= budget
  {
    FitsExactly(ms, budget, KEEP_RECENT);
    CompressedSize(ms, budget, KEEP_RECENT);
    FloorBounds(Compressed(ms, budget, KEEP_RECENT));
    FloorBounds(ms);
  }

  /** The bound is sharp: 122 system messages and seven turns, all of at least 8
      tokens, never fit into 1024. */
  lemma OneMoreSystemMessageFails(ms: seq<Message>)
    requires |OfRole(ms, true)| >= 122 && |OfRole(ms, false)| >= 7
    requires forall m :: m in ms ==> Tokens(m.content) >= LEAST
    ensures Total(Fitted(ms, 1024, KEEP_RECENT)) > 1024
  {
    var compacted := Compressed(ms, 1024, KEEP_RECENT);
    FitsExactly(ms, 1024, KEEP_RECENT);
    AllLarge(ms);
    RolesPartition(ms);
    FloorBounds(ms);
    var system, rest := OfRole(ms, true), OfRole(ms, false);
    var recent, older := From(rest, -6), Before(rest, -6);
    assert older != [];
    var summary := Message(System, SummaryText(older));
    SummaryLarge(older);
    OfRoleFacts(ms, true);
    OfRoleFacts(ms, false);
    assert compacted == system + [summary] + recent;
    forall m | m in compacted ensures Tokens(m.content) >= LEAST {
      assert m in system || m == summary || m in rest;
    }
    AllLarge(compacted);
  }

  lemma {:induction false} AllLarge(ms: seq<Message>)
    requires forall m :: m in ms ==> Tokens(m.content) >= LEAST
    ensures Floor(ms) == LEAST * |ms|
  {
    if ms != [] {
      assert ms[|ms| - 1] in ms && forall m :: m in ms[..|ms| - 1] ==> m in ms;
      AllLarge(ms[..|ms| - 1]);
    }
  }

  lemma {:induction false} SummaryLarge(older: seq<Message>)
    requires older != []
    ensures Tokens(SummaryText(older)) >= LEAST
  {
    assert |"Compressed earlier context:\n"| == 28;
    if |older| > 1 {
      SummaryLarge(older[..|older| - 1]);
    }
  }
}
