/** Applying level 2 over and over: exactly which conversations it never stops changing. */
module CompactLevel2Repeated {
  import opened Sequences
  import opened Text
  import opened Budget
  import opened Messages
  import opened CompactLevel2
  import opened CompactLevel2Thoughts
  import opened CompactLevel2Rerun

  /** The conversation after `n` applications. */
  function After(messages: seq<Message>, cfg: Config, budget: Option<Allocation>, n: nat): seq<Message> {
    Iterate((m: seq<Message>) => Level2Run(m, cfg, budget), messages, n)
  }

  lemma AfterNext(messages: seq<Message>, cfg: Config, budget: Option<Allocation>, n: nat)
    ensures After(messages, cfg, budget, n + 1) == Level2Run(After(messages, cfg, budget, n), cfg, budget)
  {
  }

  // ---- What survives one application survives every later one ----

  function Grow(m: Message, text: string): Message {
    m.(content := m.content + text)
  }

  lemma {:induction false} SurvivingIsInitial(m: Message, limit: nat)
    ensures Surviving(m, limit) <= MessageThoughts(m)
  {
    if Overlong(m, limit) {
      CutThoughts(m.content, limit);
    }
  }

  lemma MarkedStays(m: Message, text: string)
    requires Contains(m.content, MARKER)
    ensures Contains(Grow(m, text).content, MARKER)
  {
    var i :| 0 <= i <= |m.content| && OccursAt(m.content, MARKER, i);
    OccursInPrefix(m.content, text, MARKER, i);
  }

  /** What a message keeps when cut after something was appended to it. */
  lemma {:induction false} SurvivingAppended(m: Message, text: string, limit: nat)
    requires m.role.Assistant? && ClosesNothing(text)
    ensures Surviving(Grow(m, text), limit)
         == if Contains(Grow(m, text).content, MARKER) then Thoughts(m.content) else Surviving(m, limit)
    ensures Surviving(m, limit) <= Surviving(Grow(m, text), limit)
  {
    SurvivingIsInitial(m, limit);
    AppendedThoughts(m.content, text);
    if !Contains(Grow(m, text).content, MARKER) {
      UnmarkedAppended(m, text, limit);
    }
  }

  lemma {:induction false} UnmarkedAppended(m: Message, text: string, limit: nat)
    requires m.role.Assistant? && ClosesNothing(text) && !Contains(Grow(m, text).content, MARKER)
    ensures Surviving(Grow(m, text), limit) == Surviving(m, limit)
  {
    if Contains(m.content, MARKER) {
      MarkedStays(m, text);
    }
    AppendedThoughts(m.content, text);
    if |m.content| > limit {
      assert Grow(m, text).content[..limit] == m.content[..limit];
    } else if |m.content + text| > limit {
      CutAppendedThoughts(m.content, text, limit);
    }
  }

  lemma CutIsMarked(m: Message, limit: nat)
    requires Overlong(m, limit)
    ensures Contains(Shorten(m, limit).content, MARKER)
  {
    MarkedAfterCut(m.content[..limit], "");
    assert m.content[..limit] + MARKER + "" == m.content[..limit] + MARKER;
  }

  /** Cutting at a larger limit first loses nothing that the smaller one would have kept. */
  lemma {:induction false} SurvivingLater(m: Message, limit: nat, least: nat)
    requires least <= limit
    ensures Surviving(m, least) <= Surviving(Shorten(m, limit), least)
    ensures limit == least ==> Surviving(Shorten(m, limit), least) == Surviving(m, least)
  {
    if Overlong(m, limit) {
      var cut := m.content[..limit] + MARKER;
      CutIsMarked(m, limit);
      CutThoughts(cut, least);
      assert cut[..least] == m.content[..least];
    }
  }

  lemma {:induction false} RunKeepsSurviving(prefix: seq<Message>, limit: nat, least: nat, i: nat)
    requires least <= limit && i < |prefix|
    ensures Surviving(prefix[i], least) <= Surviving(CompactPrefix(prefix, limit)[i], least)
    ensures Surviving(Shorten(prefix[i], limit), least) <= Surviving(CompactPrefix(prefix, limit)[i], least)
  {
    var m := Shorten(prefix[i], limit);
    SurvivingLater(prefix[i], limit, least);
    RewrittenMessage(prefix, limit, i);
    if Receives(prefix, i) {
      PreservedClosesNothing(prefix);
      SurvivingAppended(m, Preserved(ExtractThinking(prefix)), least);
    } else {
      assert m.content + "" == m.content;
    }
  }

  // ---- Runs over the messages in reach ----

  function PrefixRun(prefix: seq<Message>, cfg: Config, budget: Option<Allocation>): (r: seq<Message>)
    ensures |r| == |prefix|
  {
    CompactPrefix(prefix, LimitFor(Charge(prefix), cfg, budget))
  }

  function Step(cfg: Config, budget: Option<Allocation>): seq<Message> -> seq<Message> {
    (prefix: seq<Message>) => PrefixRun(prefix, cfg, budget)
  }

  lemma UnderAllowance(p: seq<Message>, cfg: Config, budget: Allocation)
    requires Charge(p) <= Allowance(budget)
    ensures Step(cfg, Some(budget))(p) == CompactPrefix(p, cfg.summaryMaxChars)
  {
  }

  lemma OverAllowance(p: seq<Message>, cfg: Config, budget: Allocation)
    requires Charge(p) > Allowance(budget)
    ensures Step(cfg, Some(budget))(p) == CompactPrefix(p, Tight(cfg))
  {
  }

  lemma {:induction false} ReachOfRun(messages: seq<Message>, cfg: Config, budget: Option<Allocation>)
    ensures InReach(Level2Run(messages, cfg, budget), cfg) == PrefixRun(InReach(messages, cfg), cfg, budget)
  {
    SummaryAxisOfReach(messages, cfg, budget);
    ReachOfLevel2(messages, cfg, FirstLimit(messages, cfg, budget));
  }

  lemma {:induction false} ReachAfter(messages: seq<Message>, cfg: Config, budget: Option<Allocation>, n: nat)
    ensures InReach(After(messages, cfg, budget, n), cfg) == Iterate(Step(cfg, budget), InReach(messages, cfg), n)
  {
    var f := (m: seq<Message>) => Level2Run(m, cfg, budget);
    var view := (m: seq<Message>) => InReach(m, cfg);
    forall y ensures view(f(y)) == Step(cfg, budget)(view(y)) {
      ReachOfRun(y, cfg, budget);
    }
    IterateAgree(f, Step(cfg, budget), view, messages, n);
  }

  ghost predicate Silent(prefix: seq<Message>) {
    |AllThoughts(prefix)| == 0
  }

  /** An application that finds a conclusion changes something. */
  lemma {:induction false} HeardChanges(messages: seq<Message>, cfg: Config, budget: Option<Allocation>, n: nat)
    requires !Silent(Iterate(Step(cfg, budget), InReach(messages, cfg), n))
    ensures After(messages, cfg, budget, n + 1) != After(messages, cfg, budget, n)
  {
    var m := After(messages, cfg, budget, n);
    ReachAfter(messages, cfg, budget, n);
    AfterNext(messages, cfg, budget, n);
    Level2Fixpoint(m, cfg, SummaryLimit(m, cfg, budget));
  }

  /** Once there is none, two more applications settle the conversation. */
  lemma {:induction false} SilentSettles(messages: seq<Message>, cfg: Config, budget: Option<Allocation>, n: nat)
    requires Silent(Iterate(Step(cfg, budget), InReach(messages, cfg), n))
    ensures After(messages, cfg, budget, n + 3) == After(messages, cfg, budget, n + 2)
    ensures budget.None? ==> After(messages, cfg, budget, n + 2) == After(messages, cfg, budget, n + 1)
  {
    var m := After(messages, cfg, budget, n);
    ReachAfter(messages, cfg, budget, n);
    TwoRunsSettle(m, cfg, budget);
    IdempotentWithoutThoughts(m, cfg, budget);
    AfterNext(messages, cfg, budget, n);
    AfterNext(messages, cfg, budget, n + 1);
    AfterNext(messages, cfg, budget, n + 2);
  }

  lemma {:induction false} SilentEach(prefix: seq<Message>)
    ensures Silent(prefix) <==> forall i :: 0 <= i < |prefix| ==> MessageThoughts(prefix[i]) == []
  {
    GatherNothing(prefix, (m: Message) => MessageThoughts(m));
  }

  // ---- A conclusion that survives the smallest limit is heard for ever ----

  function Least(cfg: Config, budget: Option<Allocation>): nat {
    if budget.Some? && Tight(cfg) < cfg.summaryMaxChars then Tight(cfg) else cfg.summaryMaxChars
  }

  ghost predicate Lasting(prefix: seq<Message>, i: nat, least: nat) {
    i < |prefix| && Surviving(prefix[i], least) != []
  }

  lemma {:induction false} RunKeepsLasting(prefix: seq<Message>, cfg: Config, budget: Option<Allocation>, i: nat)
    requires Lasting(prefix, i, Least(cfg, budget))
    ensures Lasting(PrefixRun(prefix, cfg, budget), i, Least(cfg, budget))
  {
    RunKeepsSurviving(prefix, LimitFor(Charge(prefix), cfg, budget), Least(cfg, budget), i);
  }

  lemma {:induction false} LastingIsHeard(prefix: seq<Message>, i: nat, least: nat)
    requires Lasting(prefix, i, least)
    ensures !Silent(prefix)
  {
    SurvivingIsInitial(prefix[i], least);
    SilentEach(prefix);
  }

  // ---- The others: conclusions that the smaller limit would cut away ----

  /** No conclusion survives the tight limit, and the full limit spares every message but perhaps the receiver `r`,
      which has received before. */
  ghost predicate Fragile(p: seq<Message>, r: nat, cfg: Config) {
    && LastAssistant(p, r)
    && Contains(p[r].content, "[Preserved Thinking]")
    && (forall i :: 0 <= i < |p| ==> Surviving(p[i], Tight(cfg)) == [])
    && (forall i :: 0 <= i < |p| && i != r ==> !Overlong(p[i], cfg.summaryMaxChars))
  }

  lemma MarkerIsForeign()
    ensures ForeignToBullets(MARKER)
  {
  }

  lemma {:induction false} ExtractedFromOne(p: seq<Message>, x: string) returns (i: nat)
    requires x in ExtractThinking(p)
    ensures i < |p| && x in MessageThoughts(p[i])
  {
    GatherMember(p, (m: Message) => MessageThoughts(m), x);
    i :| 0 <= i < |p| && x in MessageThoughts(p[i]);
  }

  /** A conclusion that holds the marker comes from a marked message. */
  lemma {:induction false} MarkerComesFromMarked(p: seq<Message>, x: string) returns (i: nat)
    requires x in ExtractThinking(p) && Contains(x, MARKER)
    ensures i < |p| && Contains(p[i].content, MARKER) && MessageThoughts(p[i]) != []
  {
    i := ExtractedFromOne(p, x);
    ThoughtContained(p[i].content, x);
    ContainsTransitive(p[i].content, x, MARKER);
  }

  lemma {:induction false} PreservedHoldsNoMarker(p: seq<Message>)
    requires forall i :: 0 <= i < |p| && Contains(p[i].content, MARKER) ==> MessageThoughts(p[i]) == []
    ensures !Contains(Preserved(ExtractThinking(p)), MARKER)
  {
    var thoughts := ExtractThinking(p);
    MarkerIsForeign();
    forall x | x in thoughts ensures !Contains(x, MARKER) {
      if Contains(x, MARKER) {
        var i := MarkerComesFromMarked(p, x);
      }
    }
    PreservedHoldsNo(thoughts, MARKER);
  }

  /** Appending a text without the marker marks nothing. */
  lemma {:induction false} UnmarkedStays(m: Message, text: string)
    requires !Contains(m.content, MARKER) && !Contains(text, MARKER) && |text| > 0 && text[0] == '\n'
    ensures !Contains(Grow(m, text).content, MARKER)
  {
    SuffixContained(text, 1);
    if Contains(text[1..], MARKER) {
      ContainsTransitive(text, text[1..], MARKER);
    }
    SeparatedContains(m.content, '\n', text[1..], MARKER);
    assert m.content + text == m.content + ['\n'] + text[1..];
  }

  /** Under the tight limit everything falls silent. */
  lemma {:induction false} TightSilences(p: seq<Message>, cfg: Config)
    requires forall i :: 0 <= i < |p| ==> Surviving(p[i], Tight(cfg)) == []
    ensures Silent(CompactPrefix(p, Tight(cfg)))
  {
    var cut := CompactPrefix(p, Tight(cfg));
    forall i | 0 <= i < |cut| ensures MessageThoughts(cut[i]) == [] {
      RewrittenThoughts(p, Tight(cfg), i);
    }
    SilentEach(cut);
  }

  lemma HeardReceives(p: seq<Message>, r: nat)
    requires LastAssistant(p, r) && !Silent(p)
    ensures Receives(p, r)
    ensures forall i :: 0 <= i < |p| && i != r ==> !Receives(p, i)
  {
  }

  /** Under the full limit only the receiver changes. */
  lemma {:induction false} FullRun(p: seq<Message>, r: nat, cfg: Config)
    requires Fragile(p, r, cfg) && !Silent(p)
    ensures CompactPrefix(p, cfg.summaryMaxChars)
         == p[r := Grow(Shorten(p[r], cfg.summaryMaxChars), Preserved(ExtractThinking(p)))]
  {
    var after := CompactPrefix(p, cfg.summaryMaxChars);
    HeardReceives(p, r);
    forall i | 0 <= i < |p|
      ensures after[i]
           == if i == r then Grow(Shorten(p[r], cfg.summaryMaxChars), Preserved(ExtractThinking(p))) else p[i]
    {
      RewrittenMessage(p, cfg.summaryMaxChars, i);
      assert p[i].content + "" == p[i].content;
    }
  }

  lemma LastAssistantStays(p: seq<Message>, r: nat, m: Message)
    requires LastAssistant(p, r) && m.role.Assistant?
    ensures LastAssistant(p[r := m], r)
  {
  }

  lemma {:induction false} FragileUpdate(p: seq<Message>, r: nat, cfg: Config, m: Message)
    requires Fragile(p, r, cfg) && m.role.Assistant? && Contains(m.content, "[Preserved Thinking]")
    requires Surviving(m, Tight(cfg)) == []
    ensures Fragile(p[r := m], r, cfg)
  {
    LastAssistantStays(p, r, m);
  }

  /** A receiver with nothing of its own to lose stays that way under the full limit. */
  lemma {:induction false} MuteReceiver(m: Message, limit: nat, tight: nat, text: string)
    requires m.role.Assistant? && Thoughts(m.content) == [] && ClosesNothing(text)
    ensures var after := Grow(Shorten(m, limit), text);
            after.role.Assistant? && Thoughts(after.content) == [] && Surviving(after, tight) == []
  {
    var cut := Shorten(m, limit);
    SurvivingIsInitial(m, limit);
    AppendedThoughts(cut.content, text);
    SurvivingIsInitial(Grow(cut, text), tight);
  }

  lemma {:induction false} FullRunFragile(p: seq<Message>, r: nat, cfg: Config)
    requires Fragile(p, r, cfg) && !Silent(p)
    requires Overlong(p[r], cfg.summaryMaxChars) ==> Thoughts(p[r].content) == []
    ensures Fragile(CompactPrefix(p, cfg.summaryMaxChars), r, cfg)
  {
    var text := Preserved(ExtractThinking(p));
    var cut := Shorten(p[r], cfg.summaryMaxChars);
    FullRun(p, r, cfg);
    PreservedClosesNothing(p);
    PreservedHasHeader(cut.content, ExtractThinking(p));
    if Thoughts(p[r].content) == [] {
      MuteReceiver(p[r], cfg.summaryMaxChars, Tight(cfg), text);
    } else {
      PreservedHoldsNoMarker(p);
      UnmarkedStays(p[r], text);
      SurvivingAppended(p[r], text, Tight(cfg));
    }
    FragileUpdate(p, r, cfg, Grow(cut, text));
  }

  // ---- The receiver's charge ----

  lemma {:induction false} ChargeOfUpdate(p: seq<Message>, r: nat, m: Message)
    requires r < |p|
    ensures Charge(p[r := m]) + SummaryCharge(p[r]) == Charge(p) + SummaryCharge(m)
  {
    var n := |p| - 1;
    if r < n {
      ChargeOfUpdate(p[..n], r, m);
      assert p[r := m][..n] == p[..n][r := m];
    } else {
      assert p[r := m][..n] == p[..n];
    }
  }

  lemma {:induction false} ChargeAtLeast(p: seq<Message>, r: nat)
    requires r < |p|
    ensures Charge(p) >= SummaryCharge(p[r])
  {
    var n := |p| - 1;
    if r < n {
      ChargeAtLeast(p[..n], r);
    }
  }

  lemma {:induction false} LongReceiverIsCharged(p: seq<Message>, r: nat)
    requires r < |p| && p[r].role.Assistant? && Contains(p[r].content, "[Preserved Thinking]")
    ensures 4 * Charge(p) >= |p[r].content|
  {
    ChargeAtLeast(p, r);
    ByteLenBounds(p[r].content);
  }

  // ---- Without a conclusion of the receiver's own, all of them fall silent ----

  lemma {:induction false} MuteRun(p: seq<Message>, r: nat, cfg: Config)
    requires Fragile(p, r, cfg) && Thoughts(p[r].content) == [] && !Silent(p)
    ensures var after := CompactPrefix(p, cfg.summaryMaxChars);
            && Fragile(after, r, cfg) && Thoughts(after[r].content) == []
            && (Contains(p[r].content, MARKER) ==> Contains(after[r].content, MARKER))
            && (Overlong(p[r], cfg.summaryMaxChars) ==> Contains(after[r].content, MARKER))
            && (!Overlong(p[r], cfg.summaryMaxChars) ==> |after[r].content| > |p[r].content|)
  {
    var text := Preserved(ExtractThinking(p));
    FullRun(p, r, cfg);
    FullRunFragile(p, r, cfg);
    PreservedClosesNothing(p);
    MuteReceiver(p[r], cfg.summaryMaxChars, Tight(cfg), text);
    if Overlong(p[r], cfg.summaryMaxChars) {
      CutIsMarked(p[r], cfg.summaryMaxChars);
      MarkedStays(Shorten(p[r], cfg.summaryMaxChars), text);
    } else if Contains(p[r].content, MARKER) {
      MarkedStays(p[r], text);
    }
  }

  lemma SilentNow(f: seq<Message> -> seq<Message>, p: seq<Message>)
    requires Silent(p)
    ensures Silent(Iterate(f, p, 0))
  {
  }

  lemma SilentLater(f: seq<Message> -> seq<Message>, p: seq<Message>, n: nat)
    requires Silent(Iterate(f, f(p), n))
    ensures Silent(Iterate(f, p, n + 1))
  {
    IterateFirst(f, p, n);
  }

  lemma {:induction false} OverflowSilences(p: seq<Message>, cfg: Config, budget: Allocation)
    requires Charge(p) > Allowance(budget) && forall i :: 0 <= i < |p| ==> Surviving(p[i], Tight(cfg)) == []
    ensures Silent(Iterate(Step(cfg, Some(budget)), p, 1))
  {
    TightSilences(p, cfg);
    OverAllowance(p, cfg, budget);
    SilentNow(Step(cfg, Some(budget)), CompactPrefix(p, Tight(cfg)));
    SilentLater(Step(cfg, Some(budget)), p, 0);
  }

  /** The receiver grows until the summary axis overflows. */
  lemma {:induction false} MuteFades(p: seq<Message>, r: nat, cfg: Config, budget: Allocation) returns (n: nat)
    requires Fragile(p, r, cfg) && Thoughts(p[r].content) == []
    ensures Silent(Iterate(Step(cfg, Some(budget)), p, n))
    decreases !Contains(p[r].content, MARKER), 4 * Allowance(budget) + 1 - |p[r].content|
  {
    n := 0;
    if Silent(p) {
      SilentNow(Step(cfg, Some(budget)), p);
    } else if Charge(p) > Allowance(budget) {
      OverflowSilences(p, cfg, budget);
      n := 1;
    } else {
      LongReceiverIsCharged(p, r);
      MuteRun(p, r, cfg);
      UnderAllowance(p, cfg, budget);
      n := MuteFades(CompactPrefix(p, cfg.summaryMaxChars), r, cfg, budget);
      SilentLater(Step(cfg, Some(budget)), p, n);
      n := n + 1;
    }
  }

  // ---- With one, it is a race between the receiver's length and the summary axis ----

  /** A text with `more` appended again and again until it is over the limit. */
  function Outgrowth(text: string, more: string, limit: nat): (r: string)
    requires |more| > 0
    ensures text <= r && |r| > limit
    decreases limit + 1 - |text|
  {
    if |text| > limit then text else Outgrowth(text + more, more, limit)
  }

  /** The messages in reach at the moment the receiver outgrows the full limit. */
  function Outgrown(p: seq<Message>, r: nat, cfg: Config): seq<Message>
    requires r < |p|
  {
    p[r := p[r].(content := Outgrowth(p[r].content, Preserved(ExtractThinking(p)), cfg.summaryMaxChars))]
  }

  ghost predicate Racing(p: seq<Message>, r: nat, cfg: Config) {
    Fragile(p, r, cfg) && Thoughts(p[r].content) != []
  }

  lemma {:induction false} RacingHeard(p: seq<Message>, r: nat, cfg: Config)
    requires Racing(p, r, cfg)
    ensures !Silent(p)
  {
    SilentEach(p);
    assert MessageThoughts(p[r]) != [];
  }

  lemma {:induction false} LongerIsChargedMore(m: Message, longer: Message)
    requires m.role.Assistant? && longer.role.Assistant? && Contains(m.content, "[Preserved Thinking]")
    requires m.content <= longer.content
    ensures SummaryCharge(m) <= SummaryCharge(longer)
  {
    var rest := longer.content[|m.content|..];
    assert longer.content == m.content + rest;
    ByteLenConcat(m.content, rest);
    ContainsPrefix(longer.content, m.content);
    ContainsTransitive(longer.content, m.content, "[Preserved Thinking]");
  }

  lemma {:induction false} OutgrownIsChargedMore(p: seq<Message>, r: nat, cfg: Config)
    requires Racing(p, r, cfg)
    ensures Charge(p) <= Charge(Outgrown(p, r, cfg))
    ensures |p[r].content| > cfg.summaryMaxChars ==> Outgrown(p, r, cfg) == p
  {
    var more := Preserved(ExtractThinking(p));
    var m := p[r].(content := Outgrowth(p[r].content, more, cfg.summaryMaxChars));
    LongerIsChargedMore(p[r], m);
    ChargeOfUpdate(p, r, m);
  }

  lemma {:induction false} GatherSame(a: seq<Message>, b: seq<Message>, f: Message -> seq<string>,
                                      g: Message -> seq<string>)
    requires |a| == |b| && forall i :: 0 <= i < |a| ==> f(a[i]) == g(b[i])
    ensures Gather(a, f) == Gather(b, g)
  {
    if |a| > 0 {
      GatherSame(a[..|a| - 1], b[..|b| - 1], f, g);
    }
  }

  lemma {:induction false} SameConclusions(p: seq<Message>, r: nat, text: string)
    requires r < |p| && p[r].role.Assistant? && ClosesNothing(text)
    ensures ExtractThinking(p[r := Grow(p[r], text)]) == ExtractThinking(p)
  {
    AppendedThoughts(p[r].content, text);
    GatherSame(p, p[r := Grow(p[r], text)], (m: Message) => MessageThoughts(m), (m: Message) => MessageThoughts(m));
  }

  lemma {:induction false} SameOutgrown(p: seq<Message>, r: nat, cfg: Config, after: seq<Message>)
    requires r < |p| && |p[r].content| <= cfg.summaryMaxChars
    requires after == p[r := Grow(p[r], Preserved(ExtractThinking(p)))] && ExtractThinking(after) == ExtractThinking(p)
    ensures Outgrown(after, r, cfg) == Outgrown(p, r, cfg)
  {
  }

  /** One run under the full limit before the receiver has outgrown it: the race goes on unchanged. */
  lemma {:induction false} RaceGoesOn(p: seq<Message>, r: nat, cfg: Config)
    requires Racing(p, r, cfg) && |p[r].content| <= cfg.summaryMaxChars
    ensures var after := CompactPrefix(p, cfg.summaryMaxChars);
            && Racing(after, r, cfg) && Outgrown(after, r, cfg) == Outgrown(p, r, cfg)
            && |after[r].content| > |p[r].content|
  {
    var more := Preserved(ExtractThinking(p));
    RacingHeard(p, r, cfg);
    FullRun(p, r, cfg);
    FullRunFragile(p, r, cfg);
    PreservedClosesNothing(p);
    AppendedThoughts(p[r].content, more);
    SameConclusions(p, r, more);
    SameOutgrown(p, r, cfg, p[r := Grow(p[r], more)]);
  }

  lemma {:induction false} RaceLost(p: seq<Message>, r: nat, cfg: Config, budget: Allocation) returns (n: nat)
    requires Racing(p, r, cfg) && Charge(Outgrown(p, r, cfg)) > Allowance(budget)
    ensures Silent(Iterate(Step(cfg, Some(budget)), p, n))
    decreases cfg.summaryMaxChars + 1 - |p[r].content|
  {
    if Charge(p) > Allowance(budget) {
      OverflowSilences(p, cfg, budget);
      n := 1;
    } else {
      OutgrownIsChargedMore(p, r, cfg);
      RaceGoesOn(p, r, cfg);
      UnderAllowance(p, cfg, budget);
      n := RaceLost(CompactPrefix(p, cfg.summaryMaxChars), r, cfg, budget);
      SilentLater(Step(cfg, Some(budget)), p, n);
      n := n + 1;
    }
  }

  /** The receiver outgrows the full limit while that limit still holds: it is cut, marked and never cut again. */
  lemma {:induction false} FinishLine(p: seq<Message>, r: nat, cfg: Config, limit: nat)
    requires Racing(p, r, cfg) && |p[r].content| > cfg.summaryMaxChars
    requires Surviving(p[r], cfg.summaryMaxChars) != []
    ensures Lasting(CompactPrefix(p, cfg.summaryMaxChars), r, limit)
  {
    var cut := Shorten(p[r], cfg.summaryMaxChars);
    RacingHeard(p, r, cfg);
    FullRun(p, r, cfg);
    PreservedClosesNothing(p);
    CutIsMarked(p[r], cfg.summaryMaxChars);
    MarkedStays(cut, Preserved(ExtractThinking(p)));
    AppendedThoughts(cut.content, Preserved(ExtractThinking(p)));
  }

  /** Far enough ahead: the summary axis still fits when the receiver outgrows the limit. */
  ghost predicate Winning(p: seq<Message>, r: nat, cfg: Config, budget: Allocation) {
    && Racing(p, r, cfg) && Surviving(p[r], cfg.summaryMaxChars) != []
    && Charge(Outgrown(p, r, cfg)) <= Allowance(budget)
  }

  ghost predicate Won(p: seq<Message>, r: nat, cfg: Config, budget: Allocation) {
    Winning(p, r, cfg, budget) || Lasting(p, r, Least(cfg, Some(budget)))
  }

  lemma {:induction false} WinningRuns(p: seq<Message>, r: nat, cfg: Config, budget: Allocation)
    requires Winning(p, r, cfg, budget)
    ensures Won(Step(cfg, Some(budget))(p), r, cfg, budget)
  {
    OutgrownIsChargedMore(p, r, cfg);
    UnderAllowance(p, cfg, budget);
    if |p[r].content| > cfg.summaryMaxChars {
      FinishLine(p, r, cfg, Least(cfg, Some(budget)));
    } else {
      RaceGoesOn(p, r, cfg);
      RunKeepsSurviving(p, cfg.summaryMaxChars, cfg.summaryMaxChars, r);
    }
  }

  lemma {:induction false} WonRuns(p: seq<Message>, r: nat, cfg: Config, budget: Allocation)
    requires Won(p, r, cfg, budget)
    ensures Won(Step(cfg, Some(budget))(p), r, cfg, budget)
  {
    if Winning(p, r, cfg, budget) {
      WinningRuns(p, r, cfg, budget);
    } else {
      RunKeepsLasting(p, cfg, Some(budget), r);
    }
  }

  lemma {:induction false} WonIsHeard(p: seq<Message>, r: nat, cfg: Config, budget: Allocation)
    requires Won(p, r, cfg, budget)
    ensures !Silent(p)
  {
    if Winning(p, r, cfg, budget) {
      RacingHeard(p, r, cfg);
    } else {
      LastingIsHeard(p, r, Least(cfg, Some(budget)));
    }
  }

  // ---- Exactly which conversations level 2 never stops changing ----

  /** The conclusions the second application preserves. */
  function SurvivingThoughts(prefix: seq<Message>, limit: nat): seq<string> {
    var all := Gather(prefix, (m: Message) => Surviving(m, limit));
    if |all| <= MAX_THOUGHTS then all else all[..MAX_THOUGHTS]
  }

  /** How the text of receiver `r` continues when it outgrows the limit: the conclusions of the first application, then
      those of the second as often as it takes. */
  function RaceSuffix(prefix: seq<Message>, r: nat, limit: nat): string
    requires r < |prefix|
  {
    var base := Shorten(prefix[r], limit).content;
    Outgrowth(base + Preserved(ExtractThinking(prefix)), Preserved(SurvivingThoughts(prefix, limit)), limit)[|base|..]
  }

  /** A conclusion survives the first cut and then one at the smaller of the two limits. */
  ghost predicate SurvivesBoth(prefix: seq<Message>, limit: nat, least: nat, i: nat) {
    i < |prefix| && Surviving(Shorten(prefix[i], limit), least) != []
  }

  /** A conclusion survives the first cut in the message that receives the preserved ones, and that message outgrows
      the full limit, to be cut there and marked, before the summary axis overflows and the tight limit cuts it. */
  ghost predicate OutrunsTheAxis(prefix: seq<Message>, limit: nat, budget: Allocation, r: nat) {
    && Receives(prefix, r) && Surviving(prefix[r], limit) != []
    && ChargesAfter(prefix, limit, RaceSuffix(prefix, r, limit), |prefix|) <= Allowance(budget)
  }

  /** Some conclusion is never lost. */
  ghost predicate NeverSettles(messages: seq<Message>, cfg: Config, budget: Option<Allocation>) {
    var prefix, limit := InReach(messages, cfg), FirstLimit(messages, cfg, budget);
    || (exists i: nat :: SurvivesBoth(prefix, limit, Least(cfg, budget), i))
    || (budget.Some? && exists r: nat :: OutrunsTheAxis(prefix, limit, budget.value, r))
  }

  lemma {:induction false} NothingUnderOneCharacter(m: Message)
    requires m.role.Assistant? && !Contains(m.content, MARKER)
    ensures Surviving(m, 1) == []
  {
    if Overlong(m, 1) {
      FindTagInCut(m.content, 1, OPEN);
    }
  }

  /** The limits between which a conclusion can be lost are the full and the tight one, in that order. */
  lemma {:induction false} LostBetweenLimits(m: Message, limit: nat, tokens: nat, cfg: Config,
                                             budget: Option<Allocation>)
    requires limit == LimitFor(tokens, cfg, budget)
    requires Surviving(m, limit) != [] && Surviving(Shorten(m, limit), Least(cfg, budget)) == []
    ensures budget.Some? && limit == cfg.summaryMaxChars && Least(cfg, budget) == Tight(cfg) < limit
  {
    SurvivingLater(m, limit, Least(cfg, budget));
    if budget.Some? && cfg.summaryMaxChars == 0 && limit == 1 && !Contains(m.content, MARKER) {
      NothingUnderOneCharacter(m);
    }
  }

  lemma {:induction false} FindLastAssistant(messages: seq<Message>) returns (r: nat)
    requires exists i :: 0 <= i < |messages| && messages[i].role.Assistant?
    ensures LastAssistant(messages, r)
  {
    r := |messages| - 1;
    if !messages[r].role.Assistant? {
      r := FindLastAssistant(messages[..r]);
    }
  }

  lemma {:induction false} SomeReceiver(prefix: seq<Message>, limit: nat, i: nat) returns (r: nat)
    requires Lasting(prefix, i, limit)
    ensures Receives(prefix, r)
  {
    LastingIsHeard(prefix, i, limit);
    ThoughtsNeedAssistant(prefix);
    r := FindLastAssistant(prefix);
  }

  lemma {:induction false} ReceiverBecomesFragile(prefix: seq<Message>, r: nat, limit: nat, tight: nat)
    requires Receives(prefix, r)
    requires forall i :: 0 <= i < |prefix| ==> Surviving(Shorten(prefix[i], limit), tight) == []
    ensures Surviving(CompactPrefix(prefix, limit)[r], tight) == []
  {
    var m, text := Shorten(prefix[r], limit), Preserved(ExtractThinking(prefix));
    RewrittenMessage(prefix, limit, r);
    PreservedClosesNothing(prefix);
    SurvivingAppended(m, text, tight);
    PreservedHoldsNoMarker(prefix);
    if !Contains(m.content, MARKER) {
      UnmarkedStays(m, text);
    }
  }

  lemma {:induction false} BecomesFragile(prefix: seq<Message>, r: nat, cfg: Config)
    requires Receives(prefix, r)
    requires forall i :: 0 <= i < |prefix| ==> Surviving(Shorten(prefix[i], cfg.summaryMaxChars), Tight(cfg)) == []
    ensures Fragile(CompactPrefix(prefix, cfg.summaryMaxChars), r, cfg)
  {
    var limit := cfg.summaryMaxChars;
    var p := CompactPrefix(prefix, limit);
    RunIsRewritten(prefix, limit);
    ReceiverBecomesFragile(prefix, r, limit, Tight(cfg));
    forall i | 0 <= i < |prefix|
      ensures p[i].role == prefix[i].role
      ensures i != r ==> !Overlong(p[i], limit) && Surviving(p[i], Tight(cfg)) == []
    {
      RewrittenMessage(prefix, limit, i);
      if i != r {
        assert !Receives(prefix, i);
        assert Shorten(prefix[i], limit).content + "" == Shorten(prefix[i], limit).content;
        RewrittenOverlong(prefix, limit, limit, i);
      }
    }
  }

  lemma {:induction false} SurvivingAreExtracted(prefix: seq<Message>, limit: nat)
    ensures ExtractThinking(CompactPrefix(prefix, limit)) == SurvivingThoughts(prefix, limit)
  {
    var p := CompactPrefix(prefix, limit);
    forall i | 0 <= i < |prefix| ensures MessageThoughts(p[i]) == Surviving(prefix[i], limit) {
      RewrittenThoughts(prefix, limit, i);
    }
    GatherSame(p, prefix, (m: Message) => MessageThoughts(m), (m: Message) => Surviving(m, limit));
  }

  lemma OutgrownText(p: seq<Message>, r: nat, base: string, suffix: string, cfg: Config)
    requires r < |p| && base <= p[r].content && Contains(p[r].content, "[Preserved Thinking]")
    requires suffix == Outgrowth(p[r].content, Preserved(ExtractThinking(p)), cfg.summaryMaxChars)[|base|..]
    ensures Outgrown(p, r, cfg)[r].content == base + suffix
    ensures Contains(base + suffix, "[Preserved Thinking]")
  {
    var text := Outgrowth(p[r].content, Preserved(ExtractThinking(p)), cfg.summaryMaxChars);
    ContainsPrefix(text, p[r].content);
    ContainsTransitive(text, p[r].content, "[Preserved Thinking]");
    assert base + text[|base|..] == text;
  }

  lemma {:induction false} OutgrownIsRewritten(prefix: seq<Message>, r: nat, cfg: Config)
    requires Receives(prefix, r)
    ensures RewrittenUpTo(prefix, cfg.summaryMaxChars, RaceSuffix(prefix, r, cfg.summaryMaxChars),
                          Outgrown(CompactPrefix(prefix, cfg.summaryMaxChars), r, cfg))
  {
    var limit := cfg.summaryMaxChars;
    var p := CompactPrefix(prefix, limit);
    RunIsRewritten(prefix, limit);
    SurvivingAreExtracted(prefix, limit);
    OutgrownText(p, r, Shorten(prefix[r], limit).content, RaceSuffix(prefix, r, limit), cfg);
    forall i | 0 <= i < |prefix| && i != r ensures !Receives(prefix, i) {
    }
  }

  /** What the summary axis holds when the receiver outgrows the limit. */
  lemma {:induction false} OutgrownCharge(prefix: seq<Message>, r: nat, cfg: Config)
    requires Receives(prefix, r)
    ensures Charge(Outgrown(CompactPrefix(prefix, cfg.summaryMaxChars), r, cfg))
         == ChargesAfter(prefix, cfg.summaryMaxChars, RaceSuffix(prefix, r, cfg.summaryMaxChars), |prefix|)
  {
    var limit := cfg.summaryMaxChars;
    var after := Outgrown(CompactPrefix(prefix, limit), r, cfg);
    OutgrownIsRewritten(prefix, r, cfg);
    ChargesOfRewritten(prefix, limit, RaceSuffix(prefix, r, limit), after, |prefix|);
    assert after[..|prefix|] == after;
  }

  // ---- Both directions ----

  lemma {:induction false} HeardAtFirst(prefix: seq<Message>, cfg: Config, budget: Option<Allocation>, i: nat)
    requires SurvivesBoth(prefix, LimitFor(Charge(prefix), cfg, budget), Least(cfg, budget), i)
    ensures !Silent(prefix) && Lasting(PrefixRun(prefix, cfg, budget), i, Least(cfg, budget))
  {
    var limit := LimitFor(Charge(prefix), cfg, budget);
    SurvivingIsInitial(Shorten(prefix[i], limit), Least(cfg, budget));
    LastingIsHeard(prefix, i, limit);
    RunKeepsSurviving(prefix, limit, Least(cfg, budget), i);
  }

  lemma {:induction false} SurvivorIsHeard(prefix: seq<Message>, cfg: Config, budget: Option<Allocation>, i: nat,
                                           n: nat)
    requires SurvivesBoth(prefix, LimitFor(Charge(prefix), cfg, budget), Least(cfg, budget), i)
    ensures !Silent(Iterate(Step(cfg, budget), prefix, n))
  {
    var keeps := (q: seq<Message>) => q == prefix || Lasting(q, i, Least(cfg, budget));
    HeardAtFirst(prefix, cfg, budget, i);
    forall q | keeps(q) ensures keeps(Step(cfg, budget)(q)) && !Silent(q) {
      if q != prefix {
        RunKeepsLasting(q, cfg, budget, i);
        LastingIsHeard(q, i, Least(cfg, budget));
      }
    }
    IterateKeeps(Step(cfg, budget), keeps, prefix, n);
  }

  /** When no conclusion survives both cuts, a surviving one leaves the first application in the middle of the race. */
  lemma {:induction false} RaceStarts(prefix: seq<Message>, cfg: Config, budget: Option<Allocation>, i: nat, r: nat)
    requires Receives(prefix, r) && Lasting(prefix, i, LimitFor(Charge(prefix), cfg, budget))
    requires forall j: nat :: !SurvivesBoth(prefix, LimitFor(Charge(prefix), cfg, budget), Least(cfg, budget), j)
    ensures budget.Some? && LimitFor(Charge(prefix), cfg, budget) == cfg.summaryMaxChars
    ensures var p := CompactPrefix(prefix, cfg.summaryMaxChars);
            Fragile(p, r, cfg) && Thoughts(p[r].content) == Surviving(prefix[r], cfg.summaryMaxChars)
  {
    var limit := LimitFor(Charge(prefix), cfg, budget);
    assert !SurvivesBoth(prefix, limit, Least(cfg, budget), i);
    LostBetweenLimits(prefix[i], limit, Charge(prefix), cfg, budget);
    forall j | 0 <= j < |prefix| ensures Surviving(Shorten(prefix[j], limit), Tight(cfg)) == [] {
      assert !SurvivesBoth(prefix, limit, Least(cfg, budget), j);
    }
    BecomesFragile(prefix, r, cfg);
    RewrittenThoughts(prefix, limit, r);
  }

  lemma {:induction false} RunnerWins(prefix: seq<Message>, cfg: Config, budget: Allocation, r: nat)
    requires OutrunsTheAxis(prefix, LimitFor(Charge(prefix), cfg, Some(budget)), budget, r)
    requires forall j: nat ::
               !SurvivesBoth(prefix, LimitFor(Charge(prefix), cfg, Some(budget)), Least(cfg, Some(budget)), j)
    ensures LimitFor(Charge(prefix), cfg, Some(budget)) == cfg.summaryMaxChars
    ensures Step(cfg, Some(budget))(prefix) == CompactPrefix(prefix, cfg.summaryMaxChars)
    ensures Winning(CompactPrefix(prefix, cfg.summaryMaxChars), r, cfg, budget)
  {
    var limit := LimitFor(Charge(prefix), cfg, Some(budget));
    RaceStarts(prefix, cfg, Some(budget), r, r);
    OutgrownCharge(prefix, r, cfg);
    RunKeepsSurviving(prefix, limit, limit, r);
  }

  lemma {:induction false} RunnerIsHeard(prefix: seq<Message>, cfg: Config, budget: Allocation, r: nat, n: nat)
    requires OutrunsTheAxis(prefix, LimitFor(Charge(prefix), cfg, Some(budget)), budget, r)
    requires forall j: nat ::
               !SurvivesBoth(prefix, LimitFor(Charge(prefix), cfg, Some(budget)), Least(cfg, Some(budget)), j)
    ensures !Silent(Iterate(Step(cfg, Some(budget)), prefix, n))
  {
    var limit := LimitFor(Charge(prefix), cfg, Some(budget));
    LastingIsHeard(prefix, r, limit);
    RunnerWins(prefix, cfg, budget, r);
    var keeps := (q: seq<Message>) => q == prefix || Won(q, r, cfg, budget);
    forall q | keeps(q) ensures keeps(Step(cfg, Some(budget))(q)) && !Silent(q) {
      if q != prefix {
        WonRuns(q, r, cfg, budget);
        WonIsHeard(q, r, cfg, budget);
      }
    }
    IterateKeeps(Step(cfg, Some(budget)), keeps, prefix, n);
  }

  lemma {:induction false} NothingSurvivesFirst(prefix: seq<Message>, cfg: Config, budget: Option<Allocation>)
    requires forall i: nat :: !Lasting(prefix, i, LimitFor(Charge(prefix), cfg, budget))
    ensures Silent(Iterate(Step(cfg, budget), prefix, 1))
  {
    var limit := LimitFor(Charge(prefix), cfg, budget);
    var p := CompactPrefix(prefix, limit);
    forall i | 0 <= i < |prefix| ensures MessageThoughts(p[i]) == [] {
      assert !Lasting(prefix, i, limit);
      RewrittenThoughts(prefix, limit, i);
    }
    SilentEach(p);
    SilentNow(Step(cfg, budget), p);
    SilentLater(Step(cfg, budget), prefix, 0);
  }

  lemma {:induction false} RaceFades(prefix: seq<Message>, cfg: Config, budget: Option<Allocation>, i: nat)
    returns (n: nat)
    requires Lasting(prefix, i, LimitFor(Charge(prefix), cfg, budget))
    requires forall j: nat :: !SurvivesBoth(prefix, LimitFor(Charge(prefix), cfg, budget), Least(cfg, budget), j)
    requires budget.Some? ==>
               forall r: nat :: !OutrunsTheAxis(prefix, LimitFor(Charge(prefix), cfg, budget), budget.value, r)
    ensures Silent(Iterate(Step(cfg, budget), prefix, n))
  {
    var limit := LimitFor(Charge(prefix), cfg, budget);
    var r := SomeReceiver(prefix, limit, i);
    RaceStarts(prefix, cfg, budget, i, r);
    var p := CompactPrefix(prefix, cfg.summaryMaxChars);
    if Thoughts(p[r].content) == [] {
      n := MuteFades(p, r, cfg, budget.value);
    } else {
      assert !OutrunsTheAxis(prefix, limit, budget.value, r);
      OutgrownCharge(prefix, r, cfg);
      n := RaceLost(p, r, cfg, budget.value);
    }
    SilentLater(Step(cfg, budget), prefix, n);
    n := n + 1;
  }

  lemma {:induction false} NeverSettling(messages: seq<Message>, cfg: Config, budget: Option<Allocation>, n: nat)
    requires NeverSettles(messages, cfg, budget)
    ensures After(messages, cfg, budget, n + 1) != After(messages, cfg, budget, n)
  {
    var prefix, limit := InReach(messages, cfg), FirstLimit(messages, cfg, budget);
    if i: nat :| SurvivesBoth(prefix, limit, Least(cfg, budget), i) {
      SurvivorIsHeard(prefix, cfg, budget, i, n);
    } else {
      var r: nat :| OutrunsTheAxis(prefix, limit, budget.value, r);
      RunnerIsHeard(prefix, cfg, budget.value, r, n);
    }
    HeardChanges(messages, cfg, budget, n);
  }

  lemma {:induction false} Settling(messages: seq<Message>, cfg: Config, budget: Option<Allocation>) returns (n: nat)
    requires !NeverSettles(messages, cfg, budget)
    ensures After(messages, cfg, budget, n + 1) == After(messages, cfg, budget, n)
  {
    var prefix, limit := InReach(messages, cfg), FirstLimit(messages, cfg, budget);
    if i: nat :| Lasting(prefix, i, limit) {
      n := RaceFades(prefix, cfg, budget, i);
    } else {
      NothingSurvivesFirst(prefix, cfg, budget);
      n := 1;
    }
    SilentSettles(messages, cfg, budget, n);
    n := n + 2;
  }

  /** Every further application changes something if and only if some conclusion is never lost; otherwise the
      conversation settles. */
  lemma {:induction false} RepeatedExactly(messages: seq<Message>, cfg: Config, budget: Option<Allocation>)
    ensures NeverSettles(messages, cfg, budget)
       <==> forall n: nat :: After(messages, cfg, budget, n + 1) != After(messages, cfg, budget, n)
  {
    if NeverSettles(messages, cfg, budget) {
      forall n: nat ensures After(messages, cfg, budget, n + 1) != After(messages, cfg, budget, n) {
        NeverSettling(messages, cfg, budget, n);
      }
    } else {
      var n := Settling(messages, cfg, budget);
    }
  }

  /** Without a budget: a conclusion survives the one limit, and every application changes something, or none does,
      and the third application changes nothing. */
  lemma {:induction false} RepeatedWithoutBudget(messages: seq<Message>, cfg: Config, n: nat)
    ensures var heard := exists i: nat :: Lasting(InReach(messages, cfg), i, cfg.summaryMaxChars);
            && (heard ==> After(messages, cfg, None, n + 1) != After(messages, cfg, None, n))
            && (!heard ==> After(messages, cfg, None, 3) == After(messages, cfg, None, 2))
  {
    var prefix, limit := InReach(messages, cfg), cfg.summaryMaxChars;
    if i: nat :| Lasting(prefix, i, limit) {
      SurvivingLater(prefix[i], limit, limit);
      assert SurvivesBoth(prefix, FirstLimit(messages, cfg, None), Least(cfg, None), i);
      NeverSettling(messages, cfg, None, n);
    } else {
      NothingSurvivesFirst(prefix, cfg, None);
      SilentSettles(messages, cfg, None, 1);
    }
  }
}
