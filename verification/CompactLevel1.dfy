/** Level 1: tool outputs before a protected suffix are replaced by placeholders, in an order set by importance. */
module CompactLevel1 {
  import opened Sequences
  import opened Text
  import opened Messages

  // ---- The rewrite as one map ----

  function Placeholder(id: Option<string>): string {
    "[prev:" + (if id.Some? then id.value else "?") + "]"
  }

  predicate Prunable(m: Message, cfg: Config) {
    m.role.Tool? && ByteLen(m.content) > cfg.pruneMinimumChars
  }

  function Pruned(m: Message): Message {
    m.(content := Placeholder(m.toolCallId))
  }

  /** How many messages at the end fit the protected token allowance, `acc` of it already used. */
  function KeepByTokens(messages: seq<Message>, acc: nat, protect: nat): (keep: nat)
    ensures keep <= |messages|
  {
    if |messages| == 0 then 0
    else
      var used := acc + QuarterTokens(messages[|messages| - 1].content);
      if used > protect then 0 else 1 + KeepByTokens(messages[..|messages| - 1], used, protect)
  }

  /** The tokens of the messages from `i` on. */
  function TailTokens(messages: seq<Message>, i: nat): nat
    requires i <= |messages|
  {
    SumBy(messages[i..], (m: Message) => QuarterTokens(m.content))
  }

  lemma TailTokensNext(messages: seq<Message>, i: nat)
    requires i < |messages|
    ensures var n := |messages| - 1;
            TailTokens(messages, i) == TailTokens(messages[..n], i) + QuarterTokens(messages[n].content)
  {
    var n := |messages| - 1;
    assert messages[i..][..n - i] == messages[..n][i..];
  }

  /** A message is among those kept exactly when it and everything after it fit the allowance together. */
  lemma {:induction false} AllowanceExactly(messages: seq<Message>, acc: nat, protect: nat)
    ensures var keep := KeepByTokens(messages, acc, protect);
            forall i :: 0 <= i < |messages| ==> (i >= |messages| - keep <==> acc + TailTokens(messages, i) <= protect)
  {
    if |messages| > 0 {
      var n := |messages| - 1;
      var last := QuarterTokens(messages[n].content);
      AllowanceExactly(messages[..n], acc + last, protect);
      forall i | 0 <= i < |messages|
        ensures i >= |messages| - KeepByTokens(messages, acc, protect) <==> acc + TailTokens(messages, i) <= protect
      {
        TailTokensNext(messages, i);
        if i == n {
          assert messages[..n][n..] == [];
        }
      }
    }
  }

  /** Everything from the boundary on is protected, by count or by tokens. */
  function Boundary(messages: seq<Message>, cfg: Config): (b: nat)
    ensures b <= |messages|
  {
    if |messages| <= cfg.placeholderKeepRecent then 0
    else |messages| - Max(cfg.placeholderKeepRecent, KeepByTokens(messages, 0, cfg.pruneProtectTokens))
  }

  function Level1(messages: seq<Message>, cfg: Config): (r: seq<Message>)
    ensures |r| == |messages|
  {
    var b := Boundary(messages, cfg);
    seq(|messages|, i requires 0 <= i < |messages| =>
      if i < b && Prunable(messages[i], cfg) then Pruned(messages[i]) else messages[i])
  }

  // ---- The source's bookkeeping ----

  method CountKeepByTokens(messages: seq<Message>, protect: nat) returns (keep: nat)
    ensures keep == KeepByTokens(messages, 0, protect) && keep <= |messages|
    ensures forall i :: 0 <= i < |messages| ==> (i >= |messages| - keep <==> TailTokens(messages, i) <= protect)
  {
    AllowanceExactly(messages, 0, protect);
    var acc: nat := 0;
    keep := 0;
    assert messages[..|messages|] == messages;
    while keep < |messages|
      invariant keep <= |messages|
      invariant keep + KeepByTokens(messages[..|messages| - keep], acc, protect) == KeepByTokens(messages, 0, protect)
    {
      var rest := messages[..|messages| - keep];
      assert rest[..|rest| - 1] == messages[..|messages| - keep - 1];
      acc := acc + QuarterTokens(messages[|messages| - 1 - keep].content);
      if acc > protect {
        break;
      }
      keep := keep + 1;
    }
  }

  predicate IsPair(messages: seq<Message>, i: nat) {
    i + 1 < |messages| && messages[i].role.Assistant? && messages[i + 1].role.Tool?
  }

  /** The places where an assistant message is directly followed by a tool message. */
  method FindAiToolPairs(messages: seq<Message>) returns (pairs: seq<(nat, nat)>)
    ensures forall p :: p in pairs <==> IsPair(messages, p.0) && p.1 == p.0 + 1
  {
    pairs := [];
    var last := if |messages| == 0 then 0 else |messages| - 1;
    for i := 0 to last
      invariant forall p :: p in pairs <==> p.0 < i && IsPair(messages, p.0) && p.1 == p.0 + 1
    {
      if messages[i].role.Assistant? && messages[i + 1].role.Tool? {
        pairs := pairs + [(i, i + 1)];
      }
    }
  }

  ghost predicate IsFirstUser(messages: seq<Message>, i: nat) {
    i < |messages| && messages[i].role.User? && forall j :: 0 <= j < i ==> !messages[j].role.User?
  }

  ghost predicate IsLastUser(messages: seq<Message>, i: nat) {
    i < |messages| && messages[i].role.User? && forall j :: i < j < |messages| ==> !messages[j].role.User?
  }

  /** Protected with its neighbour: half of a pair that reaches across the boundary. */
  ghost predicate CrossesBoundary(messages: seq<Message>, boundary: nat, i: nat) {
    || (IsPair(messages, i) && i + 1 >= boundary)
    || (i > 0 && IsPair(messages, i - 1) && i >= boundary)
  }

  ghost predicate Candidate(messages: seq<Message>, boundary: nat, i: nat)
    requires boundary <= |messages|
  {
    && i < boundary && !CrossesBoundary(messages, boundary, i)
    && !IsFirstUser(messages[..boundary], i) && !IsLastUser(messages[..boundary], i)
  }

  method FindUser(messages: seq<Message>, fromEnd: bool) returns (found: Option<nat>)
    ensures found.Some? ==> (if fromEnd then IsLastUser(messages, found.value) else IsFirstUser(messages, found.value))
    ensures found.None? ==> forall i :: 0 <= i < |messages| ==> !messages[i].role.User?
  {
    if fromEnd {
      for i := |messages| downto 0
        invariant forall j :: i <= j < |messages| ==> !messages[j].role.User?
      {
        if messages[i].role.User? {
          return Some(i);
        }
      }
    } else {
      for i := 0 to |messages|
        invariant forall j :: 0 <= j < i ==> !messages[j].role.User?
      {
        if messages[i].role.User? {
          return Some(i);
        }
      }
    }
    found := None;
  }

  /** The indices before the boundary that no protection rule shields, in order. */
  method CandidateIndices(messages: seq<Message>, boundary: nat) returns (indices: seq<nat>)
    requires boundary <= |messages|
    ensures forall i: nat :: i in indices <==> Candidate(messages, boundary, i)
    ensures forall a, b :: 0 <= a < b < |indices| ==> indices[a] < indices[b]
  {
    var pairs := FindAiToolPairs(messages);
    var firstUser := FindUser(messages[..boundary], false);
    var lastUser := FindUser(messages[..boundary], true);
    indices := [];
    for i := 0 to boundary
      invariant forall j: nat :: j in indices <==> j < i && Candidate(messages, boundary, j)
      invariant forall a :: 0 <= a < |indices| ==> indices[a] < i
      invariant forall a, b :: 0 <= a < b < |indices| ==> indices[a] < indices[b]
    {
      var shielded := exists p :: p in pairs && (p.0 >= boundary || p.1 >= boundary) && (i == p.0 || i == p.1);
      assert shielded <==> CrossesBoundary(messages, boundary, i) by {
        if CrossesBoundary(messages, boundary, i) {
          var p := if IsPair(messages, i) && i + 1 >= boundary then (i, i + 1) else (i - 1, i);
          assert p in pairs;
        }
      }
      if !shielded && Some(i) != firstUser && Some(i) != lastUser {
        indices := indices + [i];
      }
    }
  }

  datatype Ranked = Ranked(index: nat, score: real, overflow: bool)

  /** Overflowing axes first, then the least important. */
  predicate PruneBefore(x: Ranked, y: Ranked) {
    if x.overflow != y.overflow then x.overflow else x.score <= y.score
  }

  // ---- The order of visits does not matter ----

  function Visit(messages: seq<Message>, i: nat, cfg: Config): (r: seq<Message>)
    requires i < |messages|
    ensures |r| == |messages|
  {
    if Prunable(messages[i], cfg) then messages[i := Pruned(messages[i])] else messages
  }

  function VisitAll(messages: seq<Message>, order: seq<Ranked>, cfg: Config): (r: seq<Message>)
    requires forall c :: c in order ==> c.index < |messages|
    ensures |r| == |messages|
  {
    if |order| == 0 then messages
    else Visit(VisitAll(messages, order[..|order| - 1], cfg), order[|order| - 1].index, cfg)
  }

  predicate Visits(order: seq<Ranked>, i: nat) {
    exists k :: 0 <= k < |order| && order[k].index == i
  }

  /** After any visits, repeated or not, exactly the prunable messages among those visited are pruned. */
  lemma {:induction false} VisitAllIsAMap(messages: seq<Message>, order: seq<Ranked>, cfg: Config)
    requires forall c :: c in order ==> c.index < |messages|
    ensures var r := VisitAll(messages, order, cfg);
            forall i :: 0 <= i < |messages| ==>
              r[i] == if Visits(order, i) && Prunable(messages[i], cfg) then Pruned(messages[i]) else messages[i]
  {
    if |order| > 0 {
      var front, last := order[..|order| - 1], order[|order| - 1];
      VisitAllIsAMap(messages, front, cfg);
      forall i | 0 <= i < |messages| ensures Visits(order, i) <==> Visits(front, i) || i == last.index {
        if Visits(front, i) {
          var k :| 0 <= k < |front| && front[k].index == i;
          assert order[k].index == i;
        }
        if i == last.index {
          assert order[|order| - 1].index == i;
        }
      }
    }
  }

  /** Any two visiting orders over the same indices give the same messages. */
  lemma {:induction false} VisitOrderIrrelevant(messages: seq<Message>, a: seq<Ranked>, b: seq<Ranked>, cfg: Config)
    requires forall c :: c in a ==> c.index < |messages|
    requires forall c :: c in b ==> c.index < |messages|
    requires forall i :: Visits(a, i) <==> Visits(b, i)
    ensures VisitAll(messages, a, cfg) == VisitAll(messages, b, cfg)
  {
    VisitAllIsAMap(messages, a, cfg);
    VisitAllIsAMap(messages, b, cfg);
  }

  /** No tool message before the boundary is ever shielded: the shielded half of a crossing pair before the
      boundary is its assistant, and the protected users are users. So visiting the candidates is the map. */
  lemma {:induction false} VisitingCandidatesIsLevel1(messages: seq<Message>, order: seq<Ranked>, cfg: Config)
    requires forall i: nat :: Visits(order, i) <==> Candidate(messages, Boundary(messages, cfg), i)
    requires forall c :: c in order ==> c.index < |messages|
    ensures VisitAll(messages, order, cfg) == Level1(messages, cfg)
  {
    VisitAllIsAMap(messages, order, cfg);
    var b := Boundary(messages, cfg);
    forall i | 0 <= i < |messages| && messages[i].role.Tool?
      ensures Visits(order, i) <==> i < b
    {
      if i < b {
        assert Candidate(messages, b, i);
      }
    }
  }

  // ---- What level 1 keeps ----

  /** Count, roles, identifiers, attachments, every non-tool message and the protected suffix are untouched. */
  lemma Level1Frame(messages: seq<Message>, cfg: Config, i: nat)
    requires i < |messages|
    ensures var r := Level1(messages, cfg);
            && |r| == |messages|
            && r[i] == messages[i].(content := r[i].content)
            && (r[i] != messages[i] ==> messages[i].role.Tool? && i < |messages| - cfg.placeholderKeepRecent)
  {
  }

  /** A message becomes its placeholder exactly when it is a tool output over the minimum size with at least
      `placeholderKeepRecent` messages after it, and it and those after it exceed the protected allowance; every other
      message stays. */
  lemma {:induction false} Level1Exactly(messages: seq<Message>, cfg: Config, i: nat)
    requires i < |messages|
    ensures Level1(messages, cfg)[i]
         == if messages[i].role.Tool? && ByteLen(messages[i].content) > cfg.pruneMinimumChars
               && i + cfg.placeholderKeepRecent < |messages| && TailTokens(messages, i) > cfg.pruneProtectTokens
            then messages[i].(content := "[prev:" + (if messages[i].toolCallId.Some? then messages[i].toolCallId.value
                                                     else "?") + "]")
            else messages[i]
  {
    AllowanceExactly(messages, 0, cfg.pruneProtectTokens);
  }

  /** An agreeing tail protects at least as many messages. */
  lemma {:induction false} SameTailKeepsAsMuch(before: seq<Message>, after: seq<Message>, acc: nat, protect: nat)
    requires |before| == |after|
    requires forall i :: |before| - KeepByTokens(before, acc, protect) <= i < |before| ==> after[i] == before[i]
    ensures KeepByTokens(after, acc, protect) >= KeepByTokens(before, acc, protect)
  {
    if |before| > 0 {
      var n := |before| - 1;
      var used := acc + QuarterTokens(before[n].content);
      if used <= protect {
        assert after[n] == before[n];
        SameTailKeepsAsMuch(before[..n], after[..n], used, protect);
      }
    }
  }

  /** The boundary recomputed from the pruned contents never moves later, because pruning leaves the tail it was
      computed from alone; so a second application changes nothing, for every input and configuration. */
  lemma {:induction false} Level1Idempotent(messages: seq<Message>, cfg: Config)
    ensures Boundary(Level1(messages, cfg), cfg) <= Boundary(messages, cfg)
    ensures Level1(Level1(messages, cfg), cfg) == Level1(messages, cfg)
  {
    var r := Level1(messages, cfg);
    if |messages| > cfg.placeholderKeepRecent {
      SameTailKeepsAsMuch(messages, r, 0, cfg.pruneProtectTokens);
    }
  }

  // ---- The token estimate ----

  /** A placeholder for this identifier is never estimated above the shortest text that level 1 would prune. */
  predicate PlaceholderFits(id: Option<string>, cfg: Config) {
    EstimateBytes(ByteLen(Placeholder(id))) <= EstimateBytes(cfg.pruneMinimumChars + 1)
  }

  /** When every tool identifier's placeholder fits, level 1 never raises the estimate. */
  lemma {:induction false} Level1NeverRaises(messages: seq<Message>, cfg: Config)
    requires forall m :: m in messages && m.role.Tool? ==> PlaceholderFits(m.toolCallId, cfg)
    ensures EstimateTokens(Level1(messages, cfg)) <= EstimateTokens(messages)
  {
    var r := Level1(messages, cfg);
    forall i | 0 <= i < |messages|
      ensures EstimateMessageTokens(r[i].content) <= EstimateMessageTokens(messages[i].content)
    {
      assert messages[i] in messages;
      ByteRuleDecides(messages[i].content);
      ByteRuleDecides(r[i].content);
      if r[i] != messages[i] {
        EstimateBytesMonotone(cfg.pruneMinimumChars + 1, ByteLen(messages[i].content));
      }
    }
    EstimatePointwise(messages, r);
  }

  function Plain(role: Role, content: string, id: Option<string>): Message {
    Message(role, content, [], id)
  }

  /** One tool output just over the minimum, then enough large user messages to leave it unprotected. */
  function OneUnprotectedTool(id: Option<string>, cfg: Config): seq<Message> {
    [Plain(Tool, Filler(cfg.pruneMinimumChars + 1), id)]
      + seq(Max(cfg.placeholderKeepRecent, 1), i => Plain(User, Filler(4 * cfg.pruneProtectTokens + 4), None))
  }

  lemma {:induction false} ToolIsPruned(id: Option<string>, cfg: Config)
    ensures var messages := OneUnprotectedTool(id, cfg);
            Level1(messages, cfg) == [Pruned(messages[0])] + messages[1..]
  {
    var messages := OneUnprotectedTool(id, cfg);
    FillerBytes(4 * cfg.pruneProtectTokens + 4);
    FillerBytes(cfg.pruneMinimumChars + 1);
    var last := messages[|messages| - 1];
    assert last == Plain(User, Filler(4 * cfg.pruneProtectTokens + 4), None);
    assert KeepByTokens(messages, 0, cfg.pruneProtectTokens) == 0;
    assert Boundary(messages, cfg) >= 1;
    assert Prunable(messages[0], cfg);
  }

  lemma {:induction false} EstimateSplit(first: Message, rest: seq<Message>)
    ensures EstimateTokens([first] + rest) == EstimateMessageTokens(first.content) + EstimateTokens(rest)
  {
    if |rest| == 0 {
      assert [first] + rest == [first];
      assert [first][..0] == [];
      assert EstimateTokens([first][..0]) == 0;
    } else {
      var n := |rest| - 1;
      EstimateSplit(first, rest[..n]);
      assert ([first] + rest)[..n + 1] == [first] + rest[..n];
    }
  }

  /** The condition is exact: an identifier lets level 1 raise some conversation's estimate if and only if its
      placeholder does not fit. */
  lemma {:induction false} NeverRaisesExactly(id: Option<string>, cfg: Config)
    ensures PlaceholderFits(id, cfg)
       <==> forall messages: seq<Message> ::
              (forall m :: m in messages && m.role.Tool? ==> m.toolCallId == id)
              ==> EstimateTokens(Level1(messages, cfg)) <= EstimateTokens(messages)
  {
    if PlaceholderFits(id, cfg) {
      forall messages: seq<Message> | forall m :: m in messages && m.role.Tool? ==> m.toolCallId == id
        ensures EstimateTokens(Level1(messages, cfg)) <= EstimateTokens(messages)
      {
        Level1NeverRaises(messages, cfg);
      }
    } else {
      var messages := OneUnprotectedTool(id, cfg);
      ToolIsPruned(id, cfg);
      FillerBytes(cfg.pruneMinimumChars + 1);
      ByteRuleDecides(messages[0].content);
      ByteRuleDecides(Pruned(messages[0]).content);
      EstimateSplit(messages[0], messages[1..]);
      EstimateSplit(Pruned(messages[0]), messages[1..]);
      assert messages == [messages[0]] + messages[1..];
      assert EstimateTokens(Level1(messages, cfg)) > EstimateTokens(messages);
      assert forall m :: m in messages && m.role.Tool? ==> m.toolCallId == id;
    }
  }
}
