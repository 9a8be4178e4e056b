/** The compaction pipeline: the conversation updated in place, level by level, until its estimate fits. */
module Compaction {
  import opened Sequences
  import opened Text
  import opened Budget
  import opened Messages
  import opened CompactLevel0
  import opened CompactLevel1
  import opened CompactLevel2
  import opened CompactLevel3

  // ---- The stages ----

  /** Three rewrites and the order in which growing pressure calls for them. */
  datatype Stages = Stages(
    one: seq<Message> -> seq<Message>,
    two: seq<Message> -> seq<Message>,
    three: seq<Message> -> seq<Message>)

  /** Each check re-estimates what the previous stages left; the level reported is the last stage that ran. */
  function RunStages(messages: seq<Message>, max: nat, s: Stages): (nat, seq<Message>) {
    var (lv1, m1) := if EstimateTokens(messages) > max * 3 / 4 then (1, s.one(messages)) else (0, messages);
    var (lv2, m2) := if EstimateTokens(m1) > max * 9 / 10 then (2, s.two(m1)) else (lv1, m1);
    if EstimateTokens(m2) > max then (3, s.three(m2)) else (lv2, m2)
  }

  /** Whatever the rewrites do, the stages fire as a prefix: level k means exactly stages 1..k ran, each because the
      one before was not enough, and any level but the last certifies the final estimate. */
  lemma StagesFireAsAPrefix(messages: seq<Message>, max: nat, s: Stages)
    ensures var (lv, r) := RunStages(messages, max, s);
            var (e0, e1) := (EstimateTokens(messages), EstimateTokens(s.one(messages)));
            var e2 := EstimateTokens(s.two(s.one(messages)));
            && (lv == 0 <==> e0 <= max * 3 / 4)
            && (lv == 1 <==> e0 > max * 3 / 4 && e1 <= max * 9 / 10)
            && (lv == 2 <==> e0 > max * 3 / 4 && e1 > max * 9 / 10 && e2 <= max)
            && (lv == 3 <==> e0 > max * 3 / 4 && e1 > max * 9 / 10 && e2 > max)
            && (lv == 0 ==> r == messages)
            && (lv == 1 ==> r == s.one(messages))
            && (lv == 2 ==> r == s.two(s.one(messages)))
            && (lv == 3 ==> r == s.three(s.two(s.one(messages))))
            && (lv < 3 ==> EstimateTokens(r) <= if lv == 0 then max * 3 / 4 else if lv == 1 then max * 9 / 10 else max)
  {
  }

  function Levels(cfg: Config, budget: Option<Allocation>, wording: seq<Message> -> string): Stages {
    Stages(m => Level1(m, cfg), m => Level2(m, cfg, SummaryLimit(m, cfg, budget)), m => Level3(m, cfg, wording))
  }

  /** The level and result of a whole compaction. */
  function Compacted(messages: seq<Message>, cfg: Config, budget: Option<Allocation>, save: string -> Option<string>,
                     wording: seq<Message> -> string): (nat, seq<Message>) {
    RunStages(Level0(messages, cfg, save), cfg.maxContextTokens, Levels(cfg, budget, wording))
  }

  /** The budget the configured ratios give, if any. */
  function ConfiguredBudget(cfg: Config): Option<Allocation> {
    if cfg.budgetRatios.Some? then Some(Allocate(cfg.budgetRatios.value, cfg.maxContextTokens)) else None
  }

  // ---- The conversation ----

  class Conversation {
    var messages: seq<Message>

    constructor (messages: seq<Message>)
      ensures this.messages == messages
    {
      this.messages := messages;
    }

    /** Move large tool outputs to files, and report the files written. */
    method ApplyLevel0(cfg: Config, save: string -> Option<string>) returns (off: seq<string>)
      modifies this
      ensures messages == Level0(old(messages), cfg, save)
      ensures off == SavedPaths(old(messages), cfg, save)
    {
      ghost var original := messages;
      off := [];
      for i := 0 to |messages|
        invariant |messages| == |original|
        invariant forall j :: 0 <= j < |original| ==>
                    messages[j] == if j < i then Offloaded(original[j], cfg, save) else original[j]
        invariant off == SavedPaths(original[..i], cfg, save)
      {
        SavedNext(original, i, cfg, save);
        var m := messages[i];
        if m.role.Tool? && ByteLen(m.content) > cfg.largeOutputThreshold {
          var written := save(m.content);
          if written.Some? {
            messages := messages[i := m.(content := Stub(m.content, written.value))];
            off := off + [written.value];
          }
        }
      }
      assert original[..|original|] == original;
    }

    /** Level 1 with any importance scores: the role scores, with or without a budget, or a semantic scorer. */
    method ApplyLevel1(cfg: Config, budget: Option<Allocation>, score: Message -> real)
      modifies this
      ensures messages == Level1(old(messages), cfg)
    {
      var t := |messages|;
      if t <= cfg.placeholderKeepRecent {
        return;
      }
      var keepByTokens := CountKeepByTokens(messages, cfg.pruneProtectTokens);
      var boundary := t - Max(cfg.placeholderKeepRecent, keepByTokens);
      if boundary == 0 {
        return;
      }
      var overflow := [];
      if budget.Some? {
        var usage := MeasureAxisUsage(messages[..boundary], cfg.placeholderKeepRecent);
        overflow := OverflowAxes(usage, budget.value);
      }
      var order := RankCandidates(messages, boundary, overflow, cfg, score);
      VisitingCandidatesIsLevel1(messages, order, cfg);
      PruneInOrder(order, cfg);
    }

    method PruneInOrder(order: seq<Ranked>, cfg: Config)
      requires forall c :: c in order ==> c.index < |messages|
      modifies this
      ensures messages == VisitAll(old(messages), order, cfg)
    {
      ghost var original := messages;
      for k := 0 to |order|
        invariant forall c :: c in order[..k] ==> c.index < |original|
        invariant messages == VisitAll(original, order[..k], cfg)
      {
        assert order[k] in order;
        TakeNext(order, k);
        var i := order[k].index;
        if Prunable(messages[i], cfg) {
          messages := messages[i := Pruned(messages[i])];
        }
      }
      assert order[..|order|] == order;
    }

    method ApplyLevel2(cfg: Config, budget: Option<Allocation>)
      modifies this
      ensures messages == Level2(old(messages), cfg, SummaryLimit(old(messages), cfg, budget))
    {
      ghost var original := messages;
      if |messages| <= cfg.placeholderKeepRecent {
        SettledWhenShort(messages, cfg, SummaryLimit(messages, cfg, budget));
        return;
      }
      var boundary := |messages| - cfg.placeholderKeepRecent;
      var limit := SummaryLimit(messages, cfg, budget);
      var thoughts := ExtractThinking(messages[..boundary]);
      for i := 0 to boundary
        invariant |messages| == |original|
        invariant forall j :: 0 <= j < |original| ==>
                    messages[j] == if j < i then Shorten(original[j], limit) else original[j]
      {
        messages := messages[i := Shorten(messages[i], limit)];
      }
      ghost var short := ShortenAll(original[..boundary], limit);
      assert messages == short + original[boundary..];
      if |thoughts| > 0 {
        AppendThoughts(boundary, Preserved(thoughts));
      }
    }

    method AppendThoughts(boundary: nat, text: string)
      requires boundary <= |messages|
      modifies this
      ensures messages == AppendToLastAssistant(old(messages)[..boundary], text) + old(messages)[boundary..]
    {
      ghost var prefix := messages[..boundary];
      assert prefix[..boundary] == prefix && prefix[boundary..] == [];
      for i := boundary downto 0
        invariant messages == old(messages)
        invariant AppendToLastAssistant(prefix, text) == AppendToLastAssistant(prefix[..i], text) + prefix[i..]
      {
        AppendStep(prefix, i, text);
        if messages[i].role.Assistant? {
          UpdateInPrefix(messages, boundary, i, messages[i].(content := messages[i].content + text));
          messages := messages[i := messages[i].(content := messages[i].content + text)];
          return;
        }
      }
    }

    method ApplyLevel3(cfg: Config, wording: seq<Message> -> string)
      modifies this
      ensures messages == Level3(old(messages), cfg, wording)
    {
      if |messages| <= cfg.emergencyKeep + 1 {
        return;
      }
      var sys := Systems(messages);
      var handoff := Handoff(messages, cfg, wording);
      var recent := messages[|messages| - cfg.emergencyKeep..];
      messages := sys;
      messages := messages + handoff;
      messages := messages + recent;
    }

    /** Compact until the estimate fits, and report the last level needed and the files written. */
    method CompactIfNeeded(cfg: Config, save: string -> Option<string>, score: Message -> real,
                           wording: seq<Message> -> string)
      returns (level: nat, off: seq<string>)
      modifies this
      ensures (level, messages) == Compacted(old(messages), cfg, ConfiguredBudget(cfg), save, wording)
      ensures off == SavedPaths(old(messages), cfg, save)
      ensures level == 0 ==> EstimateTokens(messages) <= cfg.maxContextTokens * 3 / 4
      ensures level == 1 ==> EstimateTokens(messages) <= cfg.maxContextTokens * 9 / 10
      ensures level == 2 ==> EstimateTokens(messages) <= cfg.maxContextTokens
      ensures level <= 3
    {
      var budget := ConfiguredBudget(cfg);
      off := ApplyLevel0(cfg, save);
      level := 0;
      if EstimateTokens(messages) > cfg.maxContextTokens * 3 / 4 {
        ApplyLevel1(cfg, budget, score);
        level := 1;
      }
      if EstimateTokens(messages) > cfg.maxContextTokens * 9 / 10 {
        ApplyLevel2(cfg, budget);
        level := 2;
      }
      if EstimateTokens(messages) > cfg.maxContextTokens {
        ApplyLevel3(cfg, wording);
        level := 3;
      }
    }
  }

  lemma UpdateInPrefix(messages: seq<Message>, boundary: nat, i: nat, m: Message)
    requires i < boundary <= |messages|
    ensures messages[i := m] == messages[..boundary][i := m] + messages[boundary..]
  {
  }

  lemma {:induction false} AppendStep(prefix: seq<Message>, i: nat, text: string)
    requires i < |prefix|
    ensures var m := prefix[i];
            AppendToLastAssistant(prefix[..i + 1], text) + prefix[i + 1..]
            == if m.role.Assistant? then prefix[i := m.(content := m.content + text)]
               else AppendToLastAssistant(prefix[..i], text) + prefix[i..]
  {
    assert prefix[..i + 1][..i] == prefix[..i];
    assert prefix[i..] == [prefix[i]] + prefix[i + 1..];
  }

  lemma SettledWhenShort(messages: seq<Message>, cfg: Config, limit: nat)
    requires |messages| <= cfg.placeholderKeepRecent
    ensures Level2(messages, cfg, limit) == messages
  {
    assert messages[..0] == [] && messages[0..] == messages;
  }

  function Rank(messages: seq<Message>, i: nat, overflow: seq<(MemoryKind, nat)>, cfg: Config,
                score: Message -> real): Ranked
    requires i < |messages|
  {
    var kind := ClassifyMemoryKind(messages[i], i, |messages|, cfg.placeholderKeepRecent);
    Ranked(i, score(messages[i]), exists p :: p in overflow && p.0 == kind)
  }

  function RankAll(messages: seq<Message>, indices: seq<nat>, overflow: seq<(MemoryKind, nat)>, cfg: Config,
                   score: Message -> real): (r: seq<Ranked>)
    requires forall i :: i in indices ==> i < |messages|
    ensures |r| == |indices|
  {
    assert forall k :: 0 <= k < |indices| ==> indices[k] in indices;
    seq(|indices|, k requires 0 <= k < |indices| => Rank(messages, indices[k], overflow, cfg, score))
  }

  /** The candidates in visiting order: overflowing axes first, then the lowest scores. */
  method RankCandidates(messages: seq<Message>, boundary: nat, overflow: seq<(MemoryKind, nat)>, cfg: Config,
                        score: Message -> real)
    returns (order: seq<Ranked>)
    requires boundary <= |messages|
    ensures forall c :: c in order ==> c.index < |messages|
    ensures forall i: nat :: Visits(order, i) <==> Candidate(messages, boundary, i)
    ensures forall c :: c in order ==>
              && c.score == score(messages[c.index])
              && (c.overflow
                  <==> exists p ::
                         && p in overflow
                         && p.0 == ClassifyMemoryKind(messages[c.index], c.index, |messages|,
                                                      cfg.placeholderKeepRecent))
    ensures forall a, b :: 0 <= a < b < |order| ==> order[a].index != order[b].index
    ensures forall a, b :: 0 <= a < b < |order| ==>
              && (order[b].overflow ==> order[a].overflow)
              && (order[a].overflow == order[b].overflow ==> order[a].score <= order[b].score)
  {
    var indices := CandidateIndices(messages, boundary);
    var ranked := RankAll(messages, indices, overflow, cfg, score);
    order := StableSort(ranked, PruneBefore);
    StableSortSorts(ranked, PruneBefore);
    SortedCandidates(messages, indices, overflow, cfg, score, order);
    RankedOnce(messages, ranked, order, overflow, cfg, score);
    forall i: nat ensures Visits(order, i) <==> Candidate(messages, boundary, i) {
      assert Visits(order, i) <==> i in indices;
    }
  }

  lemma {:induction false} SortedCandidates(messages: seq<Message>, indices: seq<nat>, overflow: seq<(MemoryKind, nat)>,
                                            cfg: Config, score: Message -> real, order: seq<Ranked>)
    requires forall i :: i in indices ==> i < |messages|
    requires multiset(order) == multiset(RankAll(messages, indices, overflow, cfg, score))
    ensures forall c :: c in order ==> c.index < |messages| && c == Rank(messages, c.index, overflow, cfg, score)
    ensures forall i: nat :: Visits(order, i) <==> i in indices
  {
    var ranked := RankAll(messages, indices, overflow, cfg, score);
    forall c ensures c in order <==> c in ranked {
      assert c in multiset(order) <==> c in multiset(ranked);
    }
    forall c | c in order ensures c.index < |messages| && c == Rank(messages, c.index, overflow, cfg, score) {
      var k :| 0 <= k < |ranked| && ranked[k] == c;
      assert indices[k] in indices;
    }
    forall i: nat ensures Visits(order, i) <==> i in indices {
      SameIndices(indices, ranked, order, i);
    }
  }

  lemma {:induction false} RankedOnce(messages: seq<Message>, ranked: seq<Ranked>, order: seq<Ranked>,
                                      overflow: seq<(MemoryKind, nat)>, cfg: Config, score: Message -> real)
    requires forall a, b :: 0 <= a < b < |ranked| ==> ranked[a].index < ranked[b].index
    requires multiset(ranked) == multiset(order)
    requires forall c :: c in order ==> c.index < |messages| && c == Rank(messages, c.index, overflow, cfg, score)
    ensures forall a, b :: 0 <= a < b < |order| ==> order[a].index != order[b].index
  {
    assert NoRepeats(ranked);
    PermutationDistinct(ranked, order);
    forall a, b | 0 <= a < b < |order| ensures order[a].index != order[b].index {
      assert order[a] in order && order[b] in order;
    }
  }

  lemma SameIndices(indices: seq<nat>, ranked: seq<Ranked>, order: seq<Ranked>, i: nat)
    requires |ranked| == |indices| && forall k :: 0 <= k < |indices| ==> ranked[k].index == indices[k]
    requires forall c :: c in order <==> c in ranked
    ensures Visits(order, i) <==> i in indices
  {
    if i in indices {
      var k :| 0 <= k < |indices| && indices[k] == i;
      assert ranked[k] in order;
    }
    if k :| 0 <= k < |order| && order[k].index == i {
      assert order[k] in ranked;
    }
  }
}
