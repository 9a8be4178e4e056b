/** Applying level 2 again. Each application recomputes its limit from the messages it finds, and the first one's own
    markers count towards the summary axis, so the second limit may be another. */
module CompactLevel2Rerun {
  import opened Sequences
  import opened Text
  import opened Lines
  import opened Budget
  import opened Messages
  import opened CompactLevel2
  import opened CompactLevel2Thoughts

  function Level2Run(messages: seq<Message>, cfg: Config, budget: Option<Allocation>): (r: seq<Message>)
    ensures |r| == |messages|
  {
    Level2(messages, cfg, SummaryLimit(messages, cfg, budget))
  }

  function InReach(messages: seq<Message>, cfg: Config): seq<Message> {
    messages[..Reach(messages, cfg)]
  }

  // ---- The second application, exactly ----

  lemma {:induction false} GatherNothing(messages: seq<Message>, f: Message -> seq<string>)
    ensures |Gather(messages, f)| == 0 <==> forall i :: 0 <= i < |messages| ==> |f(messages[i])| == 0
  {
    if |messages| > 0 {
      GatherNothing(messages[..|messages| - 1], f);
    }
  }

  /** The conclusions a message still has once cut. */
  function Surviving(m: Message, limit: nat): seq<string> {
    MessageThoughts(Shorten(m, limit))
  }

  /** The last assistant message in reach receives the preserved conclusions, if there are any. */
  ghost predicate Receives(prefix: seq<Message>, i: nat) {
    |ExtractThinking(prefix)| > 0 && LastAssistant(prefix, i)
  }

  lemma {:induction false} RewrittenMessage(prefix: seq<Message>, limit: nat, i: nat)
    requires i < |prefix|
    ensures var m := CompactPrefix(prefix, limit)[i];
            m == Shorten(prefix[i], limit).(content := Shorten(prefix[i], limit).content
                   + if Receives(prefix, i) then Preserved(ExtractThinking(prefix)) else "")
  {
    PrefixContents(prefix, limit, i);
    if |ExtractThinking(prefix)| > 0 {
      AppendFrame(ShortenAll(prefix, limit), Preserved(ExtractThinking(prefix)), i);
    }
  }

  lemma {:induction false} RewrittenThoughts(prefix: seq<Message>, limit: nat, i: nat)
    requires i < |prefix|
    ensures MessageThoughts(CompactPrefix(prefix, limit)[i]) == Surviving(prefix[i], limit)
  {
    RewrittenMessage(prefix, limit, i);
    var cut := Shorten(prefix[i], limit).content;
    assert cut + "" == cut;
    if Receives(prefix, i) {
      PreservedClosesNothing(prefix);
      AppendedThoughts(cut, Preserved(ExtractThinking(prefix)));
    }
  }

  /** When a message that `limit` has already been applied to is overlong for another limit. */
  ghost predicate OverlongAgain(prefix: seq<Message>, limit: nat, second: nat, i: nat)
    requires i < |prefix|
  {
    && prefix[i].role.Assistant?
    && if Receives(prefix, i) then
         var text := Shorten(prefix[i], limit).content + Preserved(ExtractThinking(prefix));
         !Contains(text, MARKER) && |text| > second
       else
         !Contains(prefix[i].content, MARKER) && second < |prefix[i].content| <= limit
  }

  lemma {:induction false} RewrittenOverlong(prefix: seq<Message>, limit: nat, second: nat, i: nat)
    requires i < |prefix|
    ensures Overlong(CompactPrefix(prefix, limit)[i], second) <==> OverlongAgain(prefix, limit, second, i)
  {
    RewrittenMessage(prefix, limit, i);
    var cut := Shorten(prefix[i], limit).content;
    assert cut + "" == cut;
    if Overlong(prefix[i], limit) {
      MarkedAfterCut(prefix[i].content[..limit], "");
      assert prefix[i].content[..limit] + MARKER + "" == cut;
    }
  }

  lemma {:induction false} RewrittenSettled(prefix: seq<Message>, limit: nat, second: nat)
    ensures Settled(CompactPrefix(prefix, limit), second)
       <==> forall i :: 0 <= i < |prefix| ==>
              Surviving(prefix[i], limit) == [] && !OverlongAgain(prefix, limit, second, i)
  {
    var cut := CompactPrefix(prefix, limit);
    GatherNothing(cut, (m: Message) => MessageThoughts(m));
    forall i | 0 <= i < |prefix|
      ensures Overlong(cut[i], second) <==> OverlongAgain(prefix, limit, second, i)
      ensures MessageThoughts(cut[i]) == Surviving(prefix[i], limit)
    {
      RewrittenOverlong(prefix, limit, second, i);
      RewrittenThoughts(prefix, limit, i);
    }
  }

  // ---- The two limits, from the conversation before the first application ----

  /** What a message in reach adds to the summary axis. */
  function SummaryCharge(m: Message): nat {
    if m.role.Assistant? && (Contains(m.content, "[Preserved Thinking]") || Contains(m.content, MARKER))
    then QuarterTokens(m.content) else 0
  }

  lemma {:induction false} SummaryAxisUpTo(messages: seq<Message>, cfg: Config, n: nat)
    requires n <= |messages|
    ensures AxisTokens(messages, n, cfg.placeholderKeepRecent, Summary)
         == SumBy(messages[..if n <= Reach(messages, cfg) then n else Reach(messages, cfg)],
                  (m: Message) => SummaryCharge(m))
  {
    if n > 0 {
      SummaryAxisUpTo(messages, cfg, n - 1);
      if n <= Reach(messages, cfg) {
        TakeNext(messages, n - 1);
      }
    }
  }

  function Charge(prefix: seq<Message>): nat {
    SumBy(prefix, (m: Message) => SummaryCharge(m))
  }

  function Tight(cfg: Config): nat {
    Max(cfg.summaryMaxChars * 7 / 10, 1)
  }

  function Allowance(budget: Allocation): nat {
    budget.summary + OverflowTolerance(budget.total)
  }

  function LimitFor(tokens: nat, cfg: Config, budget: Option<Allocation>): nat {
    if budget.Some? && tokens > Allowance(budget.value) then Tight(cfg) else cfg.summaryMaxChars
  }

  /** The summary axis is charged by the messages in reach alone, and so they alone decide the limit. */
  lemma {:induction false} SummaryAxisOfReach(messages: seq<Message>, cfg: Config, budget: Option<Allocation>)
    ensures AxisTokens(messages, |messages|, cfg.placeholderKeepRecent, Summary) == Charge(InReach(messages, cfg))
    ensures SummaryLimit(messages, cfg, budget) == LimitFor(Charge(InReach(messages, cfg)), cfg, budget)
  {
    SummaryAxisUpTo(messages, cfg, |messages|);
  }

  /** What message `i` is charged once `limit` has been applied and the receiver's text continues with `suffix`. */
  ghost function ChargeAfter(prefix: seq<Message>, limit: nat, suffix: string, i: nat): nat
    requires i < |prefix|
  {
    if Receives(prefix, i) then QuarterTokens(Shorten(prefix[i], limit).content + suffix)
    else if Overlong(prefix[i], limit) then QuarterTokens(prefix[i].content[..limit] + MARKER)
    else SummaryCharge(prefix[i])
  }

  ghost function ChargesAfter(prefix: seq<Message>, limit: nat, suffix: string, n: nat): nat
    requires n <= |prefix|
  {
    if n == 0 then 0 else ChargesAfter(prefix, limit, suffix, n - 1) + ChargeAfter(prefix, limit, suffix, n - 1)
  }

  lemma {:induction false} ChargeOfRewritten(prefix: seq<Message>, limit: nat, i: nat)
    requires i < |prefix| && !Receives(prefix, i)
    ensures SummaryCharge(CompactPrefix(prefix, limit)[i]) == ChargeAfter(prefix, limit, "", i)
  {
    RewrittenMessage(prefix, limit, i);
    var cut := Shorten(prefix[i], limit).content;
    assert cut + "" == cut;
    if Overlong(prefix[i], limit) {
      MarkedAfterCut(prefix[i].content[..limit], "");
      assert prefix[i].content[..limit] + MARKER + "" == cut;
    }
  }

  /** `after` is the rewritten prefix, but for the receiver, whose text may continue otherwise. */
  ghost predicate RewrittenUpTo(prefix: seq<Message>, limit: nat, suffix: string, after: seq<Message>) {
    && |after| == |prefix|
    && forall i :: 0 <= i < |prefix| ==>
         if Receives(prefix, i) then
           && after[i].role.Assistant? && Contains(after[i].content, "[Preserved Thinking]")
           && after[i].content == Shorten(prefix[i], limit).content + suffix
         else after[i] == CompactPrefix(prefix, limit)[i]
  }

  lemma {:induction false} ChargesOfRewritten(prefix: seq<Message>, limit: nat, suffix: string, after: seq<Message>,
                                              n: nat)
    requires RewrittenUpTo(prefix, limit, suffix, after) && n <= |prefix|
    ensures Charge(after[..n]) == ChargesAfter(prefix, limit, suffix, n)
  {
    if n > 0 {
      ChargesOfRewritten(prefix, limit, suffix, after, n - 1);
      TakeNext(after, n - 1);
      if !Receives(prefix, n - 1) {
        ChargeOfRewritten(prefix, limit, n - 1);
      }
    }
  }

  lemma OccursInTail(before: string, part: string, after: string, pattern: string)
    requires part == pattern
    ensures Contains(before + (part + after), pattern)
  {
    OccursInside(before, part, after);
    assert before + part + after == before + (part + after);
  }

  lemma PreservedHasHeader(text: string, thoughts: seq<string>)
    ensures Contains(text + Preserved(thoughts), "[Preserved Thinking]")
  {
    var bullets := Join(Bullets(thoughts));
    OccursInTail(text + "\n", "[Preserved Thinking]", "\n" + bullets, "[Preserved Thinking]");
    assert text + Preserved(thoughts) == (text + "\n") + ("[Preserved Thinking]" + ("\n" + bullets));
  }

  lemma {:induction false} RunIsRewritten(prefix: seq<Message>, limit: nat)
    ensures RewrittenUpTo(prefix, limit, Preserved(ExtractThinking(prefix)), CompactPrefix(prefix, limit))
  {
    forall i | 0 <= i < |prefix| && Receives(prefix, i)
      ensures CompactPrefix(prefix, limit)[i].role.Assistant?
      ensures Contains(CompactPrefix(prefix, limit)[i].content, "[Preserved Thinking]")
      ensures CompactPrefix(prefix, limit)[i].content
           == Shorten(prefix[i], limit).content + Preserved(ExtractThinking(prefix))
    {
      RewrittenMessage(prefix, limit, i);
      PreservedHasHeader(Shorten(prefix[i], limit).content, ExtractThinking(prefix));
    }
  }

  function FirstLimit(messages: seq<Message>, cfg: Config, budget: Option<Allocation>): nat {
    LimitFor(Charge(InReach(messages, cfg)), cfg, budget)
  }

  /** The limit of the second application, from the conversation before the first. */
  ghost function SecondLimit(messages: seq<Message>, cfg: Config, budget: Option<Allocation>): nat {
    var prefix := InReach(messages, cfg);
    var limit := FirstLimit(messages, cfg, budget);
    LimitFor(ChargesAfter(prefix, limit, Preserved(ExtractThinking(prefix)), |prefix|), cfg, budget)
  }

  lemma ReachOfLevel2(messages: seq<Message>, cfg: Config, limit: nat)
    ensures InReach(Level2(messages, cfg, limit), cfg) == CompactPrefix(InReach(messages, cfg), limit)
  {
  }

  /** The second application finds exactly that limit. */
  lemma {:induction false} LimitsFromInput(messages: seq<Message>, cfg: Config, budget: Option<Allocation>)
    ensures SummaryLimit(messages, cfg, budget) == FirstLimit(messages, cfg, budget)
    ensures SummaryLimit(Level2Run(messages, cfg, budget), cfg, budget) == SecondLimit(messages, cfg, budget)
  {
    var prefix, limit := InReach(messages, cfg), FirstLimit(messages, cfg, budget);
    var once := Level2(messages, cfg, limit);
    SummaryAxisOfReach(messages, cfg, budget);
    SummaryAxisOfReach(once, cfg, budget);
    ReachOfLevel2(messages, cfg, limit);
    RunIsRewritten(prefix, limit);
    var cut := CompactPrefix(prefix, limit);
    ChargesOfRewritten(prefix, limit, Preserved(ExtractThinking(prefix)), cut, |prefix|);
    assert cut[..|prefix|] == cut;
  }

  /** What a conversation must look like for a second level 2, under its own limit, to leave the first one's result
      alone: no conclusion survives the cut in any message in reach, and no message that stayed unmarked, the receiver
      of the preserved conclusions included, is over the second limit. */
  ghost predicate SettlesAtOnce(messages: seq<Message>, cfg: Config, budget: Option<Allocation>) {
    var prefix := InReach(messages, cfg);
    var limit, second := FirstLimit(messages, cfg, budget), SecondLimit(messages, cfg, budget);
    forall i :: 0 <= i < |prefix| ==> Surviving(prefix[i], limit) == [] && !OverlongAgain(prefix, limit, second, i)
  }

  lemma {:induction false} SecondRunExactly(messages: seq<Message>, cfg: Config, budget: Option<Allocation>)
    ensures var once := Level2Run(messages, cfg, budget);
            Level2Run(once, cfg, budget) == once <==> SettlesAtOnce(messages, cfg, budget)
  {
    var limit, second := FirstLimit(messages, cfg, budget), SecondLimit(messages, cfg, budget);
    LimitsFromInput(messages, cfg, budget);
    Level2Fixpoint(Level2(messages, cfg, limit), cfg, second);
    ReachOfLevel2(messages, cfg, limit);
    RewrittenSettled(InReach(messages, cfg), limit, second);
  }

  // ---- Without conclusions in reach ----

  ghost predicate NoThoughts(messages: seq<Message>, cfg: Config) {
    |AllThoughts(InReach(messages, cfg))| == 0
  }

  lemma {:induction false} NothingSurvives(m: Message, limit: nat)
    requires |MessageThoughts(m)| == 0
    ensures Surviving(m, limit) == []
  {
    if Overlong(m, limit) {
      CutThoughts(m.content, limit);
    }
  }

  lemma {:induction false} NoThoughtsEach(messages: seq<Message>, cfg: Config, limit: nat)
    requires NoThoughts(messages, cfg)
    ensures var prefix := InReach(messages, cfg);
            forall i :: 0 <= i < |prefix| ==> Surviving(prefix[i], limit) == []
  {
    var prefix := InReach(messages, cfg);
    GatherNothing(prefix, (m: Message) => MessageThoughts(m));
    forall i | 0 <= i < |prefix| ensures Surviving(prefix[i], limit) == [] {
      assert |MessageThoughts(prefix[i])| == 0;
      NothingSurvives(prefix[i], limit);
    }
  }

  /** An unmarked message that the first limit lets pass and the second does not. */
  predicate Between(m: Message, limit: nat, second: nat) {
    m.role.Assistant? && !Contains(m.content, MARKER) && second < |m.content| <= limit
  }

  /** With no conclusion in reach, the second application changes nothing exactly when no unmarked message in reach
      has a length between the two limits; without a budget the limits agree and it never does. */
  lemma {:induction false} IdempotentWithoutThoughts(messages: seq<Message>, cfg: Config, budget: Option<Allocation>)
    requires NoThoughts(messages, cfg)
    ensures var once := Level2Run(messages, cfg, budget);
            Level2Run(once, cfg, budget) == once
            <==> forall m :: m in InReach(messages, cfg) ==>
                   !Between(m, FirstLimit(messages, cfg, budget), SecondLimit(messages, cfg, budget))
    ensures budget.None? ==>
              Level2Run(Level2Run(messages, cfg, budget), cfg, budget) == Level2Run(messages, cfg, budget)
  {
    var limit, second := FirstLimit(messages, cfg, budget), SecondLimit(messages, cfg, budget);
    var prefix := InReach(messages, cfg);
    LimitsFromInput(messages, cfg, budget);
    NoThoughtsEach(messages, cfg, limit);
    SecondRunExactly(messages, cfg, budget);
    forall i | 0 <= i < |prefix|
      ensures OverlongAgain(prefix, limit, second, i) <==> Between(prefix[i], limit, second)
    {
      assert |AllThoughts(prefix)| == 0;
    }
    forall i | 0 <= i < |prefix| ensures prefix[i] in prefix {
    }
  }

  lemma {:induction false} StillNoThoughts(messages: seq<Message>, cfg: Config, budget: Option<Allocation>)
    requires NoThoughts(messages, cfg)
    ensures NoThoughts(Level2Run(messages, cfg, budget), cfg)
  {
    var limit := SummaryLimit(messages, cfg, budget);
    var prefix := InReach(messages, cfg);
    var cut := CompactPrefix(prefix, limit);
    ReachOfLevel2(messages, cfg, limit);
    NoThoughtsEach(messages, cfg, limit);
    GatherNothing(cut, (m: Message) => MessageThoughts(m));
    forall i | 0 <= i < |cut| ensures |MessageThoughts(cut[i])| == 0 {
      RewrittenThoughts(prefix, limit, i);
    }
  }

  lemma {:induction false} UnmarkedFits(messages: seq<Message>, cfg: Config, budget: Option<Allocation>, m: Message)
    requires NoThoughts(messages, cfg) && m in InReach(Level2Run(messages, cfg, budget), cfg)
    ensures m.role.Assistant? && !Contains(m.content, MARKER) ==> |m.content| <= SummaryLimit(messages, cfg, budget)
  {
    var limit := SummaryLimit(messages, cfg, budget);
    var prefix := InReach(messages, cfg);
    ReachOfLevel2(messages, cfg, limit);
    var i :| 0 <= i < |prefix| && CompactPrefix(prefix, limit)[i] == m;
    assert ExtractThinking(prefix) == [];
    RewrittenOverlong(prefix, limit, limit, i);
  }

  /** With no conclusion in reach two applications always settle: whatever limits the budget gives, a third one
      changes nothing. */
  lemma {:induction false} TwoRunsSettle(messages: seq<Message>, cfg: Config, budget: Option<Allocation>)
    requires NoThoughts(messages, cfg)
    ensures var twice := Level2Run(Level2Run(messages, cfg, budget), cfg, budget);
            Level2Run(twice, cfg, budget) == twice
  {
    var once := Level2Run(messages, cfg, budget);
    var first, second := FirstLimit(messages, cfg, budget), SecondLimit(messages, cfg, budget);
    LimitsFromInput(messages, cfg, budget);
    if first == second {
      IdempotentWithoutThoughts(messages, cfg, budget);
    } else {
      StillNoThoughts(messages, cfg, budget);
      IdempotentWithoutThoughts(once, cfg, budget);
      LimitsFromInput(once, cfg, budget);
      var third := SecondLimit(once, cfg, budget);
      forall m | m in InReach(once, cfg) ensures !Between(m, second, third) {
        UnmarkedFits(messages, cfg, budget, m);
      }
    }
  }
}
