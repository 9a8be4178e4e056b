/** Conversation messages, their token estimates and the memory axes they count towards. */
module Messages {
  import opened Sequences
  import opened Text
  import opened Budget

  datatype Role = System | User | Assistant | Tool

  datatype Attachment = Image(bytes: seq<nat>)

  datatype Message = Message(role: Role, content: string, attachments: seq<Attachment>, toolCallId: Option<string>)

  datatype Config = Config(
    largeOutputThreshold: nat,
    placeholderKeepRecent: nat,
    summaryMaxChars: nat,
    emergencyKeep: nat,
    maxContextTokens: nat,
    pruneMinimumChars: nat,
    pruneProtectTokens: nat,
    budgetRatios: Option<Ratios>)

  function DivCeil(a: nat, b: nat): nat
    requires b > 0
  {
    (a + b - 1) / b
  }

  function Max(a: nat, b: nat): nat {
    if a >= b then a else b
  }

  // ---- Token estimates ----

  function EstimateMessageTokens(content: string): nat {
    var byChars := DivCeil(|content|, 3);
    var byUtf8 := DivCeil(ByteLen(content) * 4, 10);
    Max(Max(byChars, byUtf8), 1)
  }

  function EstimateTokens(messages: seq<Message>): nat {
    SumBy(messages, (m: Message) => EstimateMessageTokens(m.content))
  }

  /** The estimate of a text of `bytes` bytes, whatever its characters. */
  function EstimateBytes(bytes: nat): nat {
    Max(DivCeil(bytes * 4, 10), 1)
  }

  /** The byte rule always decides: a third of the characters never exceeds four tenths of the bytes. */
  lemma ByteRuleDecides(content: string)
    ensures EstimateMessageTokens(content) == EstimateBytes(ByteLen(content))
  {
    ByteLenBounds(content);
  }

  /** A text is estimated at the least number of tokens, at least one, that two and a half bytes each can hold. */
  lemma EstimateIsLeast(content: string)
    ensures var tokens := EstimateMessageTokens(content);
            && tokens >= 1 && 10 * tokens >= 4 * ByteLen(content)
            && (tokens > 1 ==> 10 * (tokens - 1) < 4 * ByteLen(content))
  {
    ByteRuleDecides(content);
  }

  lemma EstimateBytesMonotone(a: nat, b: nat)
    requires a <= b
    ensures EstimateBytes(a) <= EstimateBytes(b)
  {
  }

  lemma {:induction false} EstimatePointwise(before: seq<Message>, after: seq<Message>)
    requires |before| == |after|
    requires forall i :: 0 <= i < |before| ==>
               EstimateMessageTokens(after[i].content) <= EstimateMessageTokens(before[i].content)
    ensures EstimateTokens(after) <= EstimateTokens(before)
  {
    if |before| > 0 {
      EstimatePointwise(before[..|before| - 1], after[..|after| - 1]);
    }
  }

  // ---- The four memory axes ----

  datatype MemoryKind = Buffer | Summary | Entities | Kg | Unclassified

  function ClassifyMemoryKind(m: Message, idx: nat, total: nat, keepRecent: nat): MemoryKind {
    var tailStart := if total >= keepRecent then total - keepRecent else 0;
    if idx >= tailStart && (m.role.User? || m.role.Assistant?) then Buffer
    else if m.role.Assistant? && (Contains(m.content, "[Preserved Thinking]") || Contains(m.content, "...[summarized]"))
    then Summary
    else if m.role.Tool? then
      if m.toolCallId.Some? && StartsWith(m.toolCallId.value, "agenther_") then Entities
      else if m.toolCallId.Some?
           && (StartsWith(m.toolCallId.value, "memory_search") || StartsWith(m.toolCallId.value, "kg_query")
               || StartsWith(m.toolCallId.value, "graph_search")) then Kg
      else if StartsWith(m.content, "[entities:") then Entities
      else Unclassified
    else Unclassified
  }

  function QuarterTokens(content: string): nat {
    DivCeil(ByteLen(content), 4)
  }

  /** Four bytes to a token, rounded up. */
  lemma QuarterIsLeast(content: string)
    ensures var tokens := QuarterTokens(content);
            4 * tokens >= ByteLen(content) && (tokens > 0 ==> 4 * (tokens - 1) < ByteLen(content))
  {
  }

  predicate Named(m: Message, prefix: string) {
    m.role.Tool? && m.toolCallId.Some? && StartsWith(m.toolCallId.value, prefix)
  }

  predicate FromGraph(m: Message) {
    Named(m, "memory_search") || Named(m, "kg_query") || Named(m, "graph_search")
  }

  predicate Recent(m: Message, idx: nat, total: nat, keepRecent: nat) {
    idx + keepRecent >= total && (m.role.User? || m.role.Assistant?)
  }

  /** Exactly which messages each axis is charged with. */
  lemma ClassifiedExactly(m: Message, idx: nat, total: nat, keepRecent: nat)
    requires idx < total
    ensures var kind := ClassifyMemoryKind(m, idx, total, keepRecent);
            && (kind == Buffer <==> Recent(m, idx, total, keepRecent))
            && (kind == Summary
                <==> && m.role.Assistant? && idx + keepRecent < total
                     && (Contains(m.content, "[Preserved Thinking]") || Contains(m.content, "...[summarized]")))
            && (kind == Entities
                <==> Named(m, "agenther_")
                     || (m.role.Tool? && !FromGraph(m) && StartsWith(m.content, "[entities:")))
            && (kind == Kg <==> FromGraph(m))
  {
    FirstCharactersDiffer(m);
  }

  lemma StartsAlike(s: string, prefix: string)
    requires StartsWith(s, prefix) && |prefix| > 0
    ensures |s| > 0 && s[0] == prefix[0]
  {
    assert s[0..|prefix|][0] == prefix[0];
  }

  lemma FirstCharactersDiffer(m: Message)
    ensures Named(m, "agenther_") ==> !FromGraph(m)
  {
    if Named(m, "agenther_") {
      var id := m.toolCallId.value;
      StartsAlike(id, "agenther_");
      if StartsWith(id, "memory_search") {
        StartsAlike(id, "memory_search");
      }
      if StartsWith(id, "kg_query") {
        StartsAlike(id, "kg_query");
      }
      if StartsWith(id, "graph_search") {
        StartsAlike(id, "graph_search");
      }
    }
  }

  /** The tokens of the first `n` messages that fall to one axis. */
  function AxisTokens(messages: seq<Message>, n: nat, keepRecent: nat, kind: MemoryKind): nat
    requires n <= |messages|
  {
    if n == 0 then 0
    else
      AxisTokens(messages, n - 1, keepRecent, kind)
        + (if ClassifyMemoryKind(messages[n - 1], n - 1, |messages|, keepRecent) == kind
           then QuarterTokens(messages[n - 1].content) else 0)
  }

  datatype AxisUsage = AxisUsage(buffer: nat, summary: nat, entities: nat, kg: nat, unclassified: nat)

  function UsageUpTo(messages: seq<Message>, n: nat, keepRecent: nat): AxisUsage
    requires n <= |messages|
  {
    AxisUsage(AxisTokens(messages, n, keepRecent, Buffer), AxisTokens(messages, n, keepRecent, Summary),
              AxisTokens(messages, n, keepRecent, Entities), AxisTokens(messages, n, keepRecent, Kg),
              AxisTokens(messages, n, keepRecent, Unclassified))
  }

  method MeasureAxisUsage(messages: seq<Message>, keepRecent: nat) returns (u: AxisUsage)
    ensures u == UsageUpTo(messages, |messages|, keepRecent)
  {
    u := AxisUsage(0, 0, 0, 0, 0);
    for i := 0 to |messages|
      invariant u == UsageUpTo(messages, i, keepRecent)
    {
      var tok := QuarterTokens(messages[i].content);
      match ClassifyMemoryKind(messages[i], i, |messages|, keepRecent) {
        case Buffer => u := u.(buffer := u.buffer + tok);
        case Summary => u := u.(summary := u.summary + tok);
        case Entities => u := u.(entities := u.entities + tok);
        case Kg => u := u.(kg := u.kg + tok);
        case Unclassified => u := u.(unclassified := u.unclassified + tok);
      }
    }
  }

  /** Every message is charged to exactly one axis: the axes share out all the tokens. */
  lemma {:induction false} AxesShareEverything(messages: seq<Message>, n: nat, keepRecent: nat)
    requires n <= |messages|
    ensures var u := UsageUpTo(messages, n, keepRecent);
            u.buffer + u.summary + u.entities + u.kg + u.unclassified
              == SumBy(messages[..n], (m: Message) => QuarterTokens(m.content))
  {
    if n > 0 {
      AxesShareEverything(messages, n - 1, keepRecent);
      TakeNext(messages, n - 1);
    }
  }

  // ---- Overflowing axes ----

  function OverflowTolerance(total: nat): nat {
    Max(total / 1000, 1)
  }

  /** A thousandth of the total, rounded down, but never less than one token. */
  lemma ToleranceExactly(total: nat)
    ensures var tol := OverflowTolerance(total);
            if total < 1000 then tol == 1 else 1000 * tol <= total < 1000 * (tol + 1)
  {
  }

  function Used(u: AxisUsage, kind: MemoryKind): nat {
    match kind
    case Buffer => u.buffer
    case Summary => u.summary
    case Entities => u.entities
    case Kg => u.kg
    case Unclassified => u.unclassified
  }

  function Granted(a: Allocation, kind: MemoryKind): nat
    requires !kind.Unclassified?
  {
    match kind
    case Buffer => a.buffer
    case Summary => a.summary
    case Entities => a.entities
    case Kg => a.kg
  }

  predicate Overflows(u: AxisUsage, a: Allocation, kind: MemoryKind) {
    !kind.Unclassified? && Used(u, kind) > Granted(a, kind) + OverflowTolerance(a.total)
  }

  predicate LargerExcess(x: (MemoryKind, nat), y: (MemoryKind, nat)) {
    x.1 >= y.1
  }

  function Excess(u: AxisUsage, a: Allocation, kind: MemoryKind): seq<(MemoryKind, nat)> {
    if Overflows(u, a, kind) then [(kind, Used(u, kind) - Granted(a, kind))] else []
  }

  lemma AllExcesses(u: AxisUsage, a: Allocation, p: (MemoryKind, nat))
    ensures p in Excess(u, a, Buffer) + Excess(u, a, Summary) + Excess(u, a, Entities) + Excess(u, a, Kg)
            <==> Overflows(u, a, p.0) && p.1 == Used(u, p.0) - Granted(a, p.0)
  {
  }

  /** The axes over their grant beyond the tolerance, each with its excess, largest first. */
  method OverflowAxes(u: AxisUsage, a: Allocation) returns (result: seq<(MemoryKind, nat)>)
    ensures forall p :: p in result <==> Overflows(u, a, p.0) && p.1 == Used(u, p.0) - Granted(a, p.0)
    ensures forall i, j :: 0 <= i < j < |result| ==> result[i].1 >= result[j].1
  {
    var tol := OverflowTolerance(a.total);
    var found: seq<(MemoryKind, nat)> := [];
    if u.buffer > a.buffer + tol {
      found := found + [(Buffer, u.buffer - a.buffer)];
    }
    if u.summary > a.summary + tol {
      found := found + [(Summary, u.summary - a.summary)];
    }
    if u.entities > a.entities + tol {
      found := found + [(Entities, u.entities - a.entities)];
    }
    if u.kg > a.kg + tol {
      found := found + [(Kg, u.kg - a.kg)];
    }
    assert found == Excess(u, a, Buffer) + Excess(u, a, Summary) + Excess(u, a, Entities) + Excess(u, a, Kg);
    result := SortExcesses(u, a, found);
  }

  method SortExcesses(u: AxisUsage, a: Allocation, found: seq<(MemoryKind, nat)>)
    returns (result: seq<(MemoryKind, nat)>)
    requires found == Excess(u, a, Buffer) + Excess(u, a, Summary) + Excess(u, a, Entities) + Excess(u, a, Kg)
    ensures forall p :: p in result <==> Overflows(u, a, p.0) && p.1 == Used(u, p.0) - Granted(a, p.0)
    ensures Sorted(result, LargerExcess)
  {
    SortKeepsMembers(found, LargerExcess);
    StableSortSorts(found, LargerExcess);
    result := StableSort(found, LargerExcess);
    forall p ensures p in result <==> Overflows(u, a, p.0) && p.1 == Used(u, p.0) - Granted(a, p.0) {
      AllExcesses(u, a, p);
    }
  }
}
