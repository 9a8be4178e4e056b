/** What a whole compaction keeps, and when compacting again changes nothing. */
module CompactionLaws {
  import opened Sequences
  import opened Text
  import opened Budget
  import opened Messages
  import opened CompactLevel0
  import opened CompactLevel1
  import opened CompactLevel2
  import opened CompactLevel3
  import opened Compaction

  // ---- Who said what ----

  lemma {:induction false} FilterPointwise(a: seq<Message>, b: seq<Message>, p: Message -> bool)
    requires |a| == |b| && forall i :: 0 <= i < |a| ==> b[i] == a[i] || (!p(a[i]) && !p(b[i]))
    ensures Filter(a, p) == Filter(b, p)
  {
    if |a| > 0 {
      FilterPointwise(a[..|a| - 1], b[..|b| - 1], p);
    }
  }

  predicate FromHuman(m: Message) {
    m.role.User?
  }

  /** A rewrite that touches only tool and assistant messages keeps the system and user messages as they are. */
  lemma {:induction false} SpeakersKept(a: seq<Message>, b: seq<Message>)
    requires |a| == |b|
    requires forall i :: 0 <= i < |a| ==>
               b[i] == a[i] || ((a[i].role.Tool? || a[i].role.Assistant?) && b[i].role == a[i].role)
    ensures Systems(a) == Systems(b)
    ensures Filter(a, FromHuman) == Filter(b, FromHuman)
  {
    FilterPointwise(a, b, (m: Message) => m.role.System?);
    FilterPointwise(a, b, FromHuman);
  }

  lemma {:induction false} EarlyLevelsKeepSpeakers(messages: seq<Message>, cfg: Config, limit: nat)
    ensures Systems(Level1(messages, cfg)) == Systems(messages)
    ensures Filter(Level1(messages, cfg), FromHuman) == Filter(messages, FromHuman)
    ensures Systems(Level2(messages, cfg, limit)) == Systems(messages)
    ensures Filter(Level2(messages, cfg, limit), FromHuman) == Filter(messages, FromHuman)
  {
    SpeakersKept(messages, Level1(messages, cfg));
    var r := Level2(messages, cfg, limit);
    forall i | 0 <= i < |messages|
      ensures r[i] == messages[i] || (messages[i].role.Assistant? && r[i].role == messages[i].role)
    {
      Level2Frame(messages, cfg, limit, i);
    }
    SpeakersKept(messages, r);
  }

  // ---- The most recent messages ----

  function Protected(cfg: Config): nat {
    if cfg.placeholderKeepRecent <= cfg.emergencyKeep then cfg.placeholderKeepRecent else cfg.emergencyKeep
  }

  lemma SameTail(a: seq<Message>, b: seq<Message>, k: nat)
    requires |a| == |b| && forall i :: 0 <= i < |a| && i + k >= |a| ==> b[i] == a[i]
    ensures LastN(a, k) == LastN(b, k)
  {
  }

  lemma {:induction false} EarlyLevelsKeepTail(messages: seq<Message>, cfg: Config, limit: nat, k: nat)
    requires k <= cfg.placeholderKeepRecent
    ensures LastN(Level1(messages, cfg), k) == LastN(messages, k)
    ensures LastN(Level2(messages, cfg, limit), k) == LastN(messages, k)
  {
    forall i | 0 <= i < |messages| && i + k >= |messages|
      ensures Level1(messages, cfg)[i] == messages[i]
      ensures Level2(messages, cfg, limit)[i] == messages[i]
    {
      Level1Frame(messages, cfg, i);
      Level2Frame(messages, cfg, limit, i);
    }
    SameTail(messages, Level1(messages, cfg), k);
    SameTail(messages, Level2(messages, cfg, limit), k);
  }

  lemma {:induction false} Level3KeepsTail(messages: seq<Message>, cfg: Config, wording: seq<Message> -> string, k: nat)
    requires k <= cfg.emergencyKeep
    ensures LastN(Level3(messages, cfg, wording), k) == LastN(messages, k)
  {
    if Acts(messages, cfg) {
      var r, tail := Level3(messages, cfg, wording), Tail(messages, cfg);
      assert r[|r| - |tail|..] == tail;
      assert LastN(r, k) == LastN(tail, k) == LastN(messages, k);
    }
  }

  lemma {:induction false} RunKeepsSpeakers(messages: seq<Message>, cfg: Config, budget: Option<Allocation>,
                                            wording: seq<Message> -> string)
    ensures var (level, result) := RunStages(messages, cfg.maxContextTokens, Levels(cfg, budget, wording));
            && Systems(messages) <= Systems(result)
            && (level < 3 ==>
                  Systems(result) == Systems(messages) && Filter(result, FromHuman) == Filter(messages, FromHuman))
  {
    var m1 := Level1(messages, cfg);
    var limit := SummaryLimit(m1, cfg, budget);
    StagesFireAsAPrefix(messages, cfg.maxContextTokens, Levels(cfg, budget, wording));
    EarlyLevelsKeepSpeakers(messages, cfg, 0);
    EarlyLevelsKeepSpeakers(m1, cfg, limit);
    SystemsSurvive(Level2(m1, cfg, limit), cfg, wording);
  }

  /** At every level, no system message is lost or reordered: they lead the result's system messages. Short of the
      emergency level the system and user messages are exactly the original ones. */
  lemma {:induction false} CompactionKeepsSpeakers(messages: seq<Message>, cfg: Config, budget: Option<Allocation>,
                                                   save: string -> Option<string>, wording: seq<Message> -> string)
    ensures var (level, result) := Compacted(messages, cfg, budget, save, wording);
            && Systems(messages) <= Systems(result)
            && (level < 3 ==>
                  Systems(result) == Systems(messages) && Filter(result, FromHuman) == Filter(messages, FromHuman))
  {
    SpeakersKept(messages, Level0(messages, cfg, save));
    RunKeepsSpeakers(Level0(messages, cfg, save), cfg, budget, wording);
  }

  lemma {:induction false} RunKeepsRecent(messages: seq<Message>, cfg: Config, budget: Option<Allocation>,
                                          wording: seq<Message> -> string)
    ensures var (level, result) := RunStages(messages, cfg.maxContextTokens, Levels(cfg, budget, wording));
            && LastN(result, Protected(cfg)) == LastN(messages, Protected(cfg))
            && (level < 3 ==> |result| == |messages|)
            && (level < 3 ==> LastN(result, cfg.placeholderKeepRecent) == LastN(messages, cfg.placeholderKeepRecent))
  {
    var m1 := Level1(messages, cfg);
    var limit := SummaryLimit(m1, cfg, budget);
    StagesFireAsAPrefix(messages, cfg.maxContextTokens, Levels(cfg, budget, wording));
    EarlyLevelsKeepTail(messages, cfg, 0, Protected(cfg));
    EarlyLevelsKeepTail(m1, cfg, limit, Protected(cfg));
    EarlyLevelsKeepTail(messages, cfg, 0, cfg.placeholderKeepRecent);
    EarlyLevelsKeepTail(m1, cfg, limit, cfg.placeholderKeepRecent);
    Level3KeepsTail(Level2(m1, cfg, limit), cfg, wording, Protected(cfg));
  }

  lemma Level0OfTail(messages: seq<Message>, cfg: Config, save: string -> Option<string>, k: nat)
    ensures LastN(Level0(messages, cfg, save), k) == Level0(LastN(messages, k), cfg, save)
  {
  }

  /** Writing this output to a file changes the message. */
  predicate Moves(m: Message, cfg: Config, save: string -> Option<string>) {
    Saved(m, cfg, save) && StubOf(m, cfg, save) != m.content
  }

  lemma Level0Fixpoint(messages: seq<Message>, cfg: Config, save: string -> Option<string>)
    ensures Level0(messages, cfg, save) == messages <==> forall m :: m in messages ==> !Moves(m, cfg, save)
  {
    if Level0(messages, cfg, save) == messages {
      forall m | m in messages ensures !Moves(m, cfg, save) {
        var i :| 0 <= i < |messages| && messages[i] == m;
        assert Level0(messages, cfg, save)[i] == m;
      }
    } else {
      var i :| 0 <= i < |messages| && Level0(messages, cfg, save)[i] != messages[i];
      assert messages[i] in messages && Moves(messages[i], cfg, save);
    }
  }

  /** A stub that fits is not its own content, so every write then changes the message. */
  lemma FittingStubMoves(messages: seq<Message>, cfg: Config, save: string -> Option<string>, m: Message)
    requires StubsFit(messages, cfg, save) && m in messages
    ensures Moves(m, cfg, save) <==> Saved(m, cfg, save)
  {
  }

  /** The last messages, as many as both keep settings protect, come through every level just as level 0 leaves them;
      so they are untouched exactly when none of them is a large tool output whose write changes it, and when stubs
      fit, exactly when none is a large tool output that could be written. */
  lemma {:induction false} CompactionKeepsRecent(messages: seq<Message>, cfg: Config, budget: Option<Allocation>,
                                                 save: string -> Option<string>, wording: seq<Message> -> string)
    ensures var (level, result) := Compacted(messages, cfg, budget, save, wording);
            var recent := LastN(messages, Protected(cfg));
            && LastN(result, Protected(cfg)) == Level0(recent, cfg, save)
            && (LastN(result, Protected(cfg)) == recent <==> forall m :: m in recent ==> !Moves(m, cfg, save))
            && (StubsFit(messages, cfg, save) ==>
                  (LastN(result, Protected(cfg)) == recent <==> forall m :: m in recent ==> !Saved(m, cfg, save)))
            && (level < 3 ==>
                  && |result| == |messages|
                  && LastN(result, cfg.placeholderKeepRecent)
                     == Level0(LastN(messages, cfg.placeholderKeepRecent), cfg, save))
  {
    var recent := LastN(messages, Protected(cfg));
    RunKeepsRecent(Level0(messages, cfg, save), cfg, budget, wording);
    Level0OfTail(messages, cfg, save, Protected(cfg));
    Level0OfTail(messages, cfg, save, cfg.placeholderKeepRecent);
    Level0Fixpoint(recent, cfg, save);
    if StubsFit(messages, cfg, save) {
      forall m | m in recent ensures Moves(m, cfg, save) <==> Saved(m, cfg, save) {
        FittingStubMoves(messages, cfg, save, m);
      }
    }
  }

  /** The last message alone, a plain tool output over the threshold, does not come through untouched. */
  lemma {:induction false} RecentOutputMoves(cfg: Config, budget: Option<Allocation>, save: string -> Option<string>,
                                             wording: seq<Message> -> string)
    requires Protected(cfg) > 0 && cfg.largeOutputThreshold >= 871
    requires cfg.largeOutputThreshold + 1 < Pow10(20)
    requires var path := save(Filler(cfg.largeOutputThreshold + 1)); path.Some? && ByteLen(path.value) <= 36
    ensures var messages := [Plain(Tool, Filler(cfg.largeOutputThreshold + 1), None)];
            LastN(Compacted(messages, cfg, budget, save, wording).1, Protected(cfg)) != LastN(messages, Protected(cfg))
  {
    var messages := [Plain(Tool, Filler(cfg.largeOutputThreshold + 1), None)];
    FillerBytes(cfg.largeOutputThreshold + 1);
    StubsFitTheDefault(messages, cfg, save);
    CompactionKeepsRecent(messages, cfg, budget, save, wording);
    assert messages[0] in LastN(messages, Protected(cfg)) && Saved(messages[0], cfg, save);
  }

  // ---- Compacting again after an early stop ----

  /** The levels after level 0 leave a result they stopped at early alone, even when its estimate still asks for
      level 1. */
  lemma {:induction false} EarlyRunIsFinal(messages: seq<Message>, cfg: Config, budget: Option<Allocation>,
                                           wording: seq<Message> -> string)
    ensures var stages := Levels(cfg, budget, wording);
            var (level, result) := RunStages(messages, cfg.maxContextTokens, stages);
            var (again, rerun) := RunStages(result, cfg.maxContextTokens, stages);
            level <= 1 ==> again <= level && rerun == result
  {
    var stages := Levels(cfg, budget, wording);
    var result := RunStages(messages, cfg.maxContextTokens, stages).1;
    StagesFireAsAPrefix(messages, cfg.maxContextTokens, stages);
    StagesFireAsAPrefix(result, cfg.maxContextTokens, stages);
    Level1Idempotent(messages, cfg);
  }

  /** No placeholder is itself large enough to be moved to a file. */
  ghost predicate PlaceholdersFit(messages: seq<Message>, cfg: Config) {
    forall m :: m in messages && m.role.Tool? ==> ByteLen(Placeholder(m.toolCallId)) <= cfg.largeOutputThreshold
  }

  lemma {:induction false} SystemsInFront(messages: seq<Message>, cfg: Config, wording: seq<Message> -> string, i: nat)
    requires var r := Level3(messages, cfg, wording); |r| == |messages| && i < |r|
    ensures var r := Level3(messages, cfg, wording); r[i] == messages[i] || r[i].role.System?
  {
    if Acts(messages, cfg) {
      var front := Systems(messages) + Handoff(messages, cfg, wording);
      SystemsAreSystems(messages);
      if i < |front| {
        assert Level3(messages, cfg, wording)[i] == front[i];
      } else {
        assert Level3(messages, cfg, wording)[i] == Tail(messages, cfg)[i - |front|];
      }
    }
  }

  /** A tool message the stages leave in its place is the one they were given, or its placeholder. */
  lemma {:induction false} ToolAfterStages(messages: seq<Message>, cfg: Config, budget: Option<Allocation>,
                                           wording: seq<Message> -> string, i: nat)
    requires i < |messages| && messages[i].role.Tool?
    requires |RunStages(messages, cfg.maxContextTokens, Levels(cfg, budget, wording)).1| == |messages|
    ensures var r := RunStages(messages, cfg.maxContextTokens, Levels(cfg, budget, wording)).1;
            r[i] == messages[i] || r[i] == Pruned(messages[i]) || r[i].role.System?
  {
    var m1 := Level1(messages, cfg);
    var limit := SummaryLimit(m1, cfg, budget);
    var m2 := Level2(m1, cfg, limit);
    StagesFireAsAPrefix(messages, cfg.maxContextTokens, Levels(cfg, budget, wording));
    Level2Frame(m1, cfg, limit, i);
    if |Level3(m2, cfg, wording)| == |m2| {
      SystemsInFront(m2, cfg, wording, i);
    }
  }

  /** A conversation that compaction leaves alone is one whose outputs level 0 leaves alone. */
  lemma {:induction false} UnchangedMovesNothing(messages: seq<Message>, cfg: Config, budget: Option<Allocation>,
                                                 save: string -> Option<string>, wording: seq<Message> -> string)
    requires PlaceholdersFit(messages, cfg)
    requires Compacted(messages, cfg, budget, save, wording).1 == messages
    ensures Level0(messages, cfg, save) == messages
  {
    var moved := Level0(messages, cfg, save);
    forall i | 0 <= i < |messages| ensures moved[i] == messages[i] {
      assert messages[i] in messages;
      if moved[i] != messages[i] {
        ToolAfterStages(moved, cfg, budget, wording, i);
      }
    }
  }

  /** Level 1 has nothing to say about message `i`: it does not run, protects the message or does not prune its kind. */
  predicate LeftByLevel1(messages: seq<Message>, cfg: Config, i: nat)
    requires i < |messages|
  {
    || EstimateTokens(messages) <= cfg.maxContextTokens * 3 / 4
    || i >= Boundary(messages, cfg)
    || !Prunable(messages[i], cfg)
  }

  /** What a compaction that stops at level 0 or 1 makes of message `i`: its stub, itself, or a placeholder. */
  function EarlyMessage(messages: seq<Message>, cfg: Config, save: string -> Option<string>, i: nat): Message
    requires i < |messages|
  {
    var moved := Level0(messages, cfg, save);
    if LeftByLevel1(moved, cfg, i) then moved[i] else Pruned(moved[i])
  }

  lemma {:induction false} EarlyResult(messages: seq<Message>, cfg: Config, budget: Option<Allocation>,
                                       save: string -> Option<string>, wording: seq<Message> -> string)
    requires Compacted(messages, cfg, budget, save, wording).0 <= 1
    ensures var r := Compacted(messages, cfg, budget, save, wording).1;
            |r| == |messages| && forall i :: 0 <= i < |messages| ==> r[i] == EarlyMessage(messages, cfg, save, i)
  {
    StagesFireAsAPrefix(Level0(messages, cfg, save), cfg.maxContextTokens, Levels(cfg, budget, wording));
  }

  /** Nothing that an early stop leaves behind is moved by a later level 0. */
  ghost predicate NothingMovesLater(messages: seq<Message>, cfg: Config, save: string -> Option<string>,
                                    later: string -> Option<string>) {
    forall i :: 0 <= i < |messages| ==> !Moves(EarlyMessage(messages, cfg, save, i), cfg, later)
  }

  lemma {:induction false} NothingMovesExactly(messages: seq<Message>, cfg: Config, save: string -> Option<string>,
                                               later: string -> Option<string>, result: seq<Message>)
    requires |result| == |messages|
    requires forall i :: 0 <= i < |messages| ==> result[i] == EarlyMessage(messages, cfg, save, i)
    ensures Level0(result, cfg, later) == result <==> NothingMovesLater(messages, cfg, save, later)
  {
    Level0Fixpoint(result, cfg, later);
    MembersByIndex(result, cfg, later);
  }

  lemma SameKind(messages: seq<Message>, cfg: Config, save: string -> Option<string>, i: nat)
    requires i < |messages|
    ensures var m := EarlyMessage(messages, cfg, save, i);
            m.role == messages[i].role && m.toolCallId == messages[i].toolCallId
  {
  }

  lemma {:induction false} EarlyPlaceholders(messages: seq<Message>, cfg: Config, save: string -> Option<string>,
                                             result: seq<Message>)
    requires |result| == |messages| && PlaceholdersFit(messages, cfg)
    requires forall i :: 0 <= i < |messages| ==> result[i] == EarlyMessage(messages, cfg, save, i)
    ensures PlaceholdersFit(result, cfg)
  {
    forall i | 0 <= i < |messages|
      ensures result[i].role == messages[i].role && result[i].toolCallId == messages[i].toolCallId
    {
      SameKind(messages, cfg, save, i);
    }
    SamePlaceholders(messages, result, cfg);
  }

  lemma {:induction false} EarlyRerun(messages: seq<Message>, cfg: Config, budget: Option<Allocation>,
                                      save: string -> Option<string>, later: string -> Option<string>,
                                      wording: seq<Message> -> string)
    requires Compacted(messages, cfg, budget, save, wording).0 <= 1
    ensures var (level, result) := Compacted(messages, cfg, budget, save, wording);
            var (again, rerun) := Compacted(result, cfg, budget, later, wording);
            Level0(result, cfg, later) == result ==> rerun == result && again <= level
  {
    EarlyRunIsFinal(Level0(messages, cfg, save), cfg, budget, wording);
  }

  /** A compaction that stopped at level 0 or 1 is final when a later level 0 moves none of the stubs, placeholders and
      other messages it left, whatever the writes do the second time, and only then if placeholders are short. */
  lemma {:induction false} EarlyStopsAreFinal(messages: seq<Message>, cfg: Config, budget: Option<Allocation>,
                                              save: string -> Option<string>, later: string -> Option<string>,
                                              wording: seq<Message> -> string)
    requires Compacted(messages, cfg, budget, save, wording).0 <= 1
    ensures var (level, result) := Compacted(messages, cfg, budget, save, wording);
            var (again, rerun) := Compacted(result, cfg, budget, later, wording);
            && (NothingMovesLater(messages, cfg, save, later) ==> rerun == result && again <= level)
            && (PlaceholdersFit(messages, cfg) ==> (rerun == result <==> NothingMovesLater(messages, cfg, save, later)))
  {
    var result := Compacted(messages, cfg, budget, save, wording).1;
    EarlyResult(messages, cfg, budget, save, wording);
    NothingMovesExactly(messages, cfg, save, later, result);
    EarlyRerun(messages, cfg, budget, save, later, wording);
    if PlaceholdersFit(messages, cfg) {
      EarlyPlaceholders(messages, cfg, save, result);
      if Compacted(result, cfg, budget, later, wording).1 == result {
        UnchangedMovesNothing(result, cfg, budget, later, wording);
      }
    }
  }

  // ---- When stubs and placeholders fit ----

  /** An output whose first write fails, that level 1 leaves in full, and whose write would later succeed. */
  predicate WritableLater(messages: seq<Message>, cfg: Config, save: string -> Option<string>,
                          later: string -> Option<string>, i: nat)
    requires i < |messages|
  {
    && Oversized(messages[i], cfg) && save(messages[i].content).None? && later(messages[i].content).Some?
    && LeftByLevel1(Level0(messages, cfg, save), cfg, i)
  }

  lemma {:induction false} MovesLater(messages: seq<Message>, cfg: Config, save: string -> Option<string>,
                                      later: string -> Option<string>, i: nat)
    requires StubsFit(messages, cfg, save) && StubsFit(messages, cfg, later) && PlaceholdersFit(messages, cfg)
    requires i < |messages|
    ensures Moves(EarlyMessage(messages, cfg, save, i), cfg, later) <==> WritableLater(messages, cfg, save, later, i)
  {
    assert messages[i] in messages;
  }

  /** When stubs and placeholders fit the threshold, an early stop is final unless some output whose write failed is
      left in full and can be written later; with the same writes it is always final. */
  lemma {:induction false} EarlyStopsExactly(messages: seq<Message>, cfg: Config, budget: Option<Allocation>,
                                             save: string -> Option<string>, later: string -> Option<string>,
                                             wording: seq<Message> -> string)
    requires Compacted(messages, cfg, budget, save, wording).0 <= 1
    requires StubsFit(messages, cfg, save) && StubsFit(messages, cfg, later) && PlaceholdersFit(messages, cfg)
    ensures var result := Compacted(messages, cfg, budget, save, wording).1;
            && (Compacted(result, cfg, budget, later, wording).1 == result
                <==> forall i :: 0 <= i < |messages| ==> !WritableLater(messages, cfg, save, later, i))
            && (save == later ==> Compacted(result, cfg, budget, later, wording).1 == result)
  {
    EarlyStopsAreFinal(messages, cfg, budget, save, later, wording);
    forall i | 0 <= i < |messages|
      ensures Moves(EarlyMessage(messages, cfg, save, i), cfg, later) <==> WritableLater(messages, cfg, save, later, i)
    {
      MovesLater(messages, cfg, save, later, i);
    }
  }

  lemma SamePlaceholders(messages: seq<Message>, result: seq<Message>, cfg: Config)
    requires PlaceholdersFit(messages, cfg) && |result| == |messages|
    requires forall i :: 0 <= i < |messages| ==>
               result[i].role == messages[i].role && result[i].toolCallId == messages[i].toolCallId
    ensures PlaceholdersFit(result, cfg)
  {
    forall m | m in result && m.role.Tool? ensures ByteLen(Placeholder(m.toolCallId)) <= cfg.largeOutputThreshold {
      var i :| 0 <= i < |result| && result[i] == m;
      assert messages[i] in messages;
    }
  }

  lemma MembersByIndex(messages: seq<Message>, cfg: Config, save: string -> Option<string>)
    ensures (forall m :: m in messages ==> !Moves(m, cfg, save))
       <==> forall i :: 0 <= i < |messages| ==> !Moves(messages[i], cfg, save)
  {
  }

  // ---- A threshold below the length of a stub ----

  /** The stub of a text of at most 200 characters is longer than the text. */
  lemma ShortTextGrows(content: string, path: string)
    requires |content| <= 200
    ensures |Stub(content, path)| > |content|
  {
  }

  lemma {:induction false} StubOfHundred(path: string)
    requires |path| <= 82
    ensures 100 < |Stub(Filler(100), path)| <= 200
  {
    FillerBytes(100);
    assert Decimal(1) == "1" && Decimal(10) == "10" && Decimal(100) == "100";
  }

  lemma SmallEstimateStops(messages: seq<Message>, cfg: Config, budget: Option<Allocation>,
                           save: string -> Option<string>,
                           wording: seq<Message> -> string)
    requires EstimateTokens(Level0(messages, cfg, save)) <= cfg.maxContextTokens * 3 / 4
    ensures Compacted(messages, cfg, budget, save, wording) == (0, Level0(messages, cfg, save))
  {
    StagesFireAsAPrefix(Level0(messages, cfg, save), cfg.maxContextTokens, Levels(cfg, budget, wording));
  }

  lemma StubMoves(stub: string, cfg: Config, save: string -> Option<string>)
    requires cfg.largeOutputThreshold < |stub| <= 200 && save(stub).Some?
    ensures Level0([Plain(Tool, stub, None)], cfg, save) != [Plain(Tool, stub, None)]
  {
    ByteLenBounds(stub);
    ShortTextGrows(stub, save(stub).value);
    assert Level0([Plain(Tool, stub, None)], cfg, save)[0].content == Stub(stub, save(stub).value);
  }

  lemma UnnamedPlaceholderFits(content: string, cfg: Config)
    requires 8 <= cfg.largeOutputThreshold
    ensures PlaceholdersFit([Plain(Tool, content, None)], cfg)
  {
    assert Placeholder(None) == "[prev:?]";
    AsciiBytes("[prev:?]");
  }

  lemma {:induction false} StubIsMoved(stub: string, cfg: Config, budget: Option<Allocation>,
                                       save: string -> Option<string>,
                                       wording: seq<Message> -> string)
    requires 8 <= cfg.largeOutputThreshold < |stub| <= 200 && save(stub).Some?
    ensures Compacted([Plain(Tool, stub, None)], cfg, budget, save, wording).1 != [Plain(Tool, stub, None)]
  {
    StubMoves(stub, cfg, save);
    UnnamedPlaceholderFits(stub, cfg);
    if Compacted([Plain(Tool, stub, None)], cfg, budget, save, wording).1 == [Plain(Tool, stub, None)] {
      UnchangedMovesNothing([Plain(Tool, stub, None)], cfg, budget, save, wording);
    }
  }

  /** With a threshold below a stub's length, an early stop is not final: the stub is moved to a file in its turn. */
  lemma {:induction false} SmallThresholdRewritesStub(cfg: Config, budget: Option<Allocation>,
                                                      save: string -> Option<string>,
                                                      wording: seq<Message> -> string)
    requires 8 <= cfg.largeOutputThreshold < 100 && cfg.maxContextTokens >= 1000
    requires var path := save(Filler(100));
             path.Some? && |path.value| <= 82 && save(Stub(Filler(100), path.value)).Some?
    ensures var messages := [Plain(Tool, Filler(100), None)];
            var (level, result) := Compacted(messages, cfg, budget, save, wording);
            level == 0 && Compacted(result, cfg, budget, save, wording).1 != result
  {
    var messages := [Plain(Tool, Filler(100), None)];
    var stub := Stub(Filler(100), save(Filler(100)).value);
    FillerBytes(100);
    StubOfHundred(save(Filler(100)).value);
    assert Level0(messages, cfg, save) == [Plain(Tool, stub, None)];
    ShortEstimate(stub);
    SmallEstimateStops(messages, cfg, budget, save, wording);
    StubIsMoved(stub, cfg, budget, save, wording);
  }

  lemma {:induction false} ShortEstimate(content: string)
    requires |content| <= 200
    ensures EstimateTokens([Plain(Tool, content, None)]) <= 320
  {
    OneEstimate(Plain(Tool, content, None));
    ByteLenBounds(content);
    ByteRuleDecides(content);
  }

  lemma {:induction false} OneEstimate(m: Message)
    ensures EstimateTokens([m]) == EstimateMessageTokens(m.content)
  {
    assert [m] + [] == [m];
    EstimateSplit(m, []);
  }
}
