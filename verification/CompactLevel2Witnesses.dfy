/** Conversations on which repeated level 2 does the unexpected. */
module CompactLevel2Witnesses {
  import opened Sequences
  import opened Text
  import opened Lines
  import opened Budget
  import opened Messages
  import opened CompactLevel2
  import opened CompactLevel2Thoughts
  import opened CompactLevel2Rerun
  import opened CompactLevel2Repeated

  // ---- A second limit that cuts what the first let pass ----

  lemma {:induction false} FillerHasNoMarkup(n: nat)
    ensures !Contains(Filler(n), MARKER) && !Contains(Filler(n), "[Preserved Thinking]") && Thoughts(Filler(n)) == []
  {
    NoTagWithoutItsStart(Filler(n), MARKER);
    NoTagWithoutItsStart(Filler(n), "[Preserved Thinking]");
    NoTagWithoutItsStart(Filler(n), CLOSE);
    NothingClosedNoThoughts(Filler(n));
  }

  function Said(content: string): Message {
    Message(Assistant, content, [], None)
  }

  lemma {:induction false} PlainCharges(long: Message, short: Message)
    requires long == Said(Filler(200)) && short == Said(Filler(80))
    ensures Charge([long, short]) == 0 && Charge([Shorten(long, 100), short]) >= 29
    ensures AllThoughts([long, short]) == [] && Between(short, 100, 70)
  {
    var cut := Filler(200)[..100] + MARKER;
    FillerHasNoMarkup(200);
    FillerHasNoMarkup(80);
    GatherNothing([long, short], (m: Message) => MessageThoughts(m));
    TwoCharges(long, short);
    TwoCharges(Shorten(long, 100), short);
    MarkedAfterCut(Filler(200)[..100], "");
    assert cut + "" == cut;
    ByteLenBounds(cut);
  }

  lemma {:induction false} CutPair(long: Message, short: Message, limit: nat)
    requires AllThoughts([long, short]) == [] && !Overlong(short, limit)
    ensures CompactPrefix([long, short], limit) == [Shorten(long, limit), short]
  {
    assert ExtractThinking([long, short]) == [];
  }

  lemma WholeReach(messages: seq<Message>, cfg: Config)
    requires cfg.placeholderKeepRecent == 0
    ensures InReach(messages, cfg) == messages
  {
  }

  /** One application is not enough in general: its own marker puts the first message on the summary axis, the axis
      overflows, and the tighter second limit cuts the other message. */
  lemma {:induction false} SecondLimitCuts(cfg: Config, budget: Allocation)
    requires cfg.placeholderKeepRecent == 0 && cfg.summaryMaxChars == 100
    requires budget.total == 10 && budget.summary == 10
    ensures var messages := [Said(Filler(200)), Said(Filler(80))];
            var once := Level2Run(messages, cfg, Some(budget));
            && NoThoughts(messages, cfg)
            && SummaryLimit(messages, cfg, Some(budget)) == 100 && SummaryLimit(once, cfg, Some(budget)) == 70
            && Level2Run(once, cfg, Some(budget)) != once
  {
    var long, short := Said(Filler(200)), Said(Filler(80));
    var messages, cut := [long, short], [Shorten(long, 100), short];
    PlainCharges(long, short);
    WholeReach(messages, cfg);
    WholeReach(cut, cfg);
    SummaryAxisOfReach(messages, cfg, Some(budget));
    CutPair(long, short, 100);
    assert Level2(messages, cfg, 100) == cut;
    SummaryAxisOfReach(cut, cfg, Some(budget));
    LimitsFromInput(messages, cfg, Some(budget));
    IdempotentWithoutThoughts(messages, cfg, Some(budget));
    assert short in InReach(messages, cfg);
  }

  lemma {:induction false} TwoCharges(a: Message, b: Message)
    ensures Charge([a, b]) == SummaryCharge(a) + SummaryCharge(b)
  {
    var charge := (m: Message) => SummaryCharge(m);
    assert [a, b][..1] == [a] && [a][..0] == [];
    assert SumBy([a], charge) == SumBy([], charge) + SummaryCharge(a);
  }

  // ---- A conclusion that survives the first application and is lost later ----

  lemma OccursAfterPlain(plain: string, s: string, tag: string, i: nat)
    requires |tag| > 0 && tag[0] !in plain
    ensures OccursAt(plain + s, tag, i) <==> i >= |plain| && OccursAt(s, tag, i - |plain|)
  {
    if i < |plain| {
      if OccursAt(plain + s, tag, i) {
        FirstCharacterAt(plain, s, tag, i);
      }
    } else if i + |tag| <= |plain + s| {
      assert (plain + s)[i..i + |tag|] == s[i - |plain|..i - |plain| + |tag|];
    }
  }

  lemma FirstCharacterAt(plain: string, s: string, tag: string, i: nat)
    requires |tag| > 0 && i < |plain| && OccursAt(plain + s, tag, i)
    ensures tag[0] in plain
  {
    assert (plain + s)[i] == tag[0];
  }

  lemma {:induction false} FindAfterPlain(plain: string, s: string, tag: string)
    requires |tag| > 0 && tag[0] !in plain && Find(s, tag).Some?
    ensures Find(plain + s, tag) == Some(|plain| + Find(s, tag).value)
  {
    forall i: nat ensures OccursAt(plain + s, tag, i) <==> i >= |plain| && OccursAt(s, tag, i - |plain|) {
      OccursAfterPlain(plain, s, tag, i);
    }
    assert OccursAt(plain + s, tag, |plain| + Find(s, tag).value);
  }

  lemma DropPlain(plain: string, s: string, i: nat)
    requires i <= |s|
    ensures (plain + s)[|plain| + i..] == s[i..]
  {
  }

  lemma SameFromOpen(s: string, p: nat, t: string, q: nat)
    requires Find(s, OPEN) == Some(p) && Find(t, OPEN) == Some(q)
    requires p + 7 <= |s| && q + 7 <= |t| && s[p + 7..] == t[q + 7..]
    ensures Thoughts(s) == Thoughts(t)
  {
  }

  lemma {:induction false} PlainBefore(plain: string, s: string, p: nat)
    requires '<' !in plain && Find(s, OPEN) == Some(p) && p + 7 <= |s|
    ensures Thoughts(plain + s) == Thoughts(s)
  {
    FindAfterPlain(plain, s, OPEN);
    DropPlain(plain, s, p + 7);
    SameFromOpen(plain + s, |plain| + p, s, p);
  }

  /** 96 characters, the last 16 of them a closed block. */
  function BlockAtTheEnd(): Message {
    Said(Filler(80) + (OPEN + "a" + CLOSE))
  }

  lemma {:induction false} EndBlockUnmarked()
    ensures !Contains(BlockAtTheEnd().content, MARKER) && !Contains(BlockAtTheEnd().content, "[Preserved Thinking]")
  {
    NoTagWithoutItsStart(BlockAtTheEnd().content, MARKER);
    NoTagWithoutItsStart(BlockAtTheEnd().content, "[Preserved Thinking]");
  }

  lemma {:induction false} EndBlockConcludes()
    ensures Thoughts(BlockAtTheEnd().content) == ["a"]
  {
    var block := OPEN + "a" + CLOSE;
    assert block[0..|OPEN|] == OPEN;
    assert OccursAt(block, OPEN, 0);
    NoTagWithoutItsStart("", CLOSE);
    ShortBlockConcludes("");
    assert OPEN + "a" + CLOSE + "" == block;
    PlainBefore(Filler(80), block, 0);
  }

  lemma {:induction false} EndBlockCut()
    ensures Thoughts(BlockAtTheEnd().content[..70] + MARKER) == []
  {
    assert BlockAtTheEnd().content[..70] == Filler(70);
    NoTagWithoutItsStart(Filler(70) + MARKER, CLOSE);
    NothingClosedNoThoughts(Filler(70) + MARKER);
  }

  lemma {:induction false} EndBlockSurvival(m: Message)
    requires m == BlockAtTheEnd()
    ensures Surviving(m, 100) == ["a"] && Surviving(Shorten(m, 100), 70) == [] && SummaryCharge(m) == 0
  {
    EndBlockUnmarked();
    EndBlockConcludes();
    EndBlockCut();
  }

  lemma {:induction false} PlainFacts(n: nat, limit: nat)
    ensures Surviving(Said(Filler(n)), limit) == [] && SummaryCharge(Said(Filler(n))) == 0
  {
    FillerHasNoMarkup(n);
    SurvivingIsInitial(Said(Filler(n)), limit);
  }

  lemma {:induction false} TwoMessagesFade(a: Message, b: Message, cfg: Config, budget: Option<Allocation>)
    requires InReach([a, b], cfg) == [a, b] && b.role.Assistant?
    requires var limit, least := FirstLimit([a, b], cfg, budget), Least(cfg, budget);
             && Surviving(Shorten(a, limit), least) == []
             && Surviving(b, limit) == [] && Surviving(Shorten(b, limit), least) == []
    ensures !NeverSettles([a, b], cfg, budget)
  {
    var limit, least := FirstLimit([a, b], cfg, budget), Least(cfg, budget);
    forall i: nat ensures !SurvivesBoth([a, b], limit, least, i) {
    }
    if budget.Some? {
      forall r: nat ensures !OutrunsTheAxis([a, b], limit, budget.value, r) {
        OnlyTheLastReceives(a, b, r);
      }
    }
  }

  lemma OnlyTheLastReceives(a: Message, b: Message, r: nat)
    requires b.role.Assistant?
    ensures Receives([a, b], r) ==> r == 1
  {
    if r == 0 {
      assert [a, b][1].role.Assistant?;
    }
  }

  lemma {:induction false} FirstLimitOfTwo(a: Message, b: Message, cfg: Config, budget: Option<Allocation>)
    requires cfg.placeholderKeepRecent == 0 && SummaryCharge(a) == 0 && SummaryCharge(b) == 0
    ensures InReach([a, b], cfg) == [a, b] && FirstLimit([a, b], cfg, budget) == cfg.summaryMaxChars
  {
    TwoCharges(a, b);
    WholeReach([a, b], cfg);
  }

  lemma {:induction false} NeitherSurvivesBoth(a: Message, b: Message)
    requires a == BlockAtTheEnd() && b == Said(Filler(200))
    ensures SummaryCharge(a) == 0 && SummaryCharge(b) == 0 && Surviving(a, 100) == ["a"]
    ensures Surviving(Shorten(a, 100), 70) == [] && Surviving(b, 100) == [] && Surviving(Shorten(b, 100), 70) == []
  {
    EndBlockSurvival(a);
    PlainFacts(200, 100);
    SurvivingIsInitial(Shorten(b, 100), 70);
  }

  lemma {:induction false} FadesLikeThis(a: Message, b: Message, cfg: Config, budget: Allocation)
    requires cfg.placeholderKeepRecent == 0 && cfg.summaryMaxChars == 100 && b.role.Assistant?
    requires SummaryCharge(a) == 0 && SummaryCharge(b) == 0
    requires Surviving(Shorten(a, 100), 70) == [] && Surviving(b, 100) == [] && Surviving(Shorten(b, 100), 70) == []
    ensures FirstLimit([a, b], cfg, Some(budget)) == 100 && !NeverSettles([a, b], cfg, Some(budget))
  {
    FirstLimitOfTwo(a, b, cfg, Some(budget));
    TwoMessagesFade(a, b, cfg, Some(budget));
  }

  /** Surviving the first cut is not enough: whatever the budget, the summary axis overflows sooner or later, and the
      tight limit cuts the block away. */
  lemma {:induction false} SurvivorFades(cfg: Config, budget: Allocation)
    requires cfg.placeholderKeepRecent == 0 && cfg.summaryMaxChars == 100
    ensures var messages := [BlockAtTheEnd(), Said(Filler(200))];
            && FirstLimit(messages, cfg, Some(budget)) == 100 && Surviving(messages[0], 100) == ["a"]
            && exists n: nat :: After(messages, cfg, Some(budget), n + 1) == After(messages, cfg, Some(budget), n)
  {
    var a, b := BlockAtTheEnd(), Said(Filler(200));
    NeitherSurvivesBoth(a, b);
    FadesLikeThis(a, b, cfg, budget);
    RepeatedExactly([a, b], cfg, Some(budget));
  }

  // ---- A conversation that grows in every configuration ----

  lemma {:induction false} ShortBlockConcludes(rest: string)
    requires !Contains(rest, CLOSE)
    ensures Thoughts(OPEN + "a" + CLOSE + rest) == ["a"]
  {
    var after := "a" + CLOSE + rest;
    var s := OPEN + after;
    assert OPEN + "a" + CLOSE + rest == s;
    assert s[0..|OPEN|] == OPEN && s[|OPEN|..] == after;
    assert OccursAt(s, OPEN, 0);
    FindClose(rest);
    assert after[..1] == "a";
    SingleLetterConcludes();
    NothingClosedNoThoughts(rest);
    assert after[1 + |CLOSE|..] == rest;
  }

  lemma FindClose(rest: string)
    ensures Find("a" + CLOSE + rest, CLOSE) == Some(1)
  {
    var after := "a" + CLOSE + rest;
    assert after == "a" + (CLOSE + rest);
    assert after[1..1 + |CLOSE|] == (CLOSE + rest)[..|CLOSE|] == CLOSE;
    assert OccursAt(after, CLOSE, 1);
    assert !OccursAt(after, CLOSE, 0) by {
      assert after[0] == 'a' && CLOSE[0] == '<';
      assert after[0..|CLOSE|][0] == 'a';
    }
  }

  lemma {:induction false} SingleLetterConcludes()
    ensures Conclusion("a") == ["a"]
  {
    assert Trim("a") == "a";
    assert Split("") == [""] && "a"[..0] == "" && "" + ['a'] == "a";
    assert Split("a") == [""][..0] + ["a"] == ["a"];
    assert LastNonBlank(["a"]) == "a";
  }

  function Copies(text: string, n: nat): (r: string)
    ensures |r| == n * |text|
  {
    if n == 0 then "" else Copies(text, n - 1) + text
  }

  /** A closed block in a message that is already marked, so that no limit cuts it. */
  const BLOCK := OPEN + "a" + CLOSE + MARKER

  lemma {:induction false} CopiesCloseNothing(start: string, text: string, n: nat)
    requires !Contains(start, CLOSE) && ClosesNothing(text)
    ensures !Contains(start + Copies(text, n), CLOSE)
  {
    if n == 0 {
      assert start + Copies(text, 0) == start;
    } else {
      CopiesCloseNothing(start, text, n - 1);
      OneMoreClosesNothing(start + Copies(text, n - 1), text);
      Regrouped(start, Copies(text, n - 1), text);
    }
  }

  lemma {:induction false} OneMessage(m: Message)
    requires m.role.Assistant? && |Thoughts(m.content)| <= MAX_THOUGHTS
    ensures ExtractThinking([m]) == Thoughts(m.content)
  {
    var own := (x: Message) => MessageThoughts(x);
    assert [m][..0] == [];
    assert Gather([m], own) == Gather([], own) + own(m) == own(m);
  }

  lemma {:induction false} CompactAlone(m: Message, limit: nat)
    requires m.role.Assistant? && Contains(m.content, MARKER) && ExtractThinking([m]) == ["a"]
    ensures CompactPrefix([m], limit) == [m.(content := m.content + Preserved(["a"]))]
  {
    assert ShortenAll([m], limit) == [m];
    assert [m][..0] == [];
  }

  lemma {:induction false} AloneInReach(m: Message, tail: seq<Message>, cfg: Config, limit: nat)
    requires |tail| == cfg.placeholderKeepRecent
    ensures Level2([m] + tail, cfg, limit) == CompactPrefix([m], limit) + tail
  {
    assert ([m] + tail)[..1] == [m] && ([m] + tail)[1..] == tail;
  }

  lemma {:induction false} BlockWith(copies: string)
    requires !Contains(MARKER + copies, CLOSE)
    ensures Contains(BLOCK + copies, MARKER) && Thoughts(BLOCK + copies) == ["a"]
  {
    ShortBlockConcludes(MARKER + copies);
    assert BLOCK + copies == OPEN + "a" + CLOSE + (MARKER + copies);
    MarkedAfterCut(OPEN + "a" + CLOSE, copies);
  }

  lemma {:induction false} BlockConcludes(n: nat)
    ensures var text := BLOCK + Copies(Preserved(["a"]), n);
            Contains(text, MARKER) && Thoughts(text) == ["a"]
  {
    OneConclusion();
    PreservedClosesNothing([Said(BLOCK)]);
    NoTagWithoutItsStart(MARKER, CLOSE);
    CopiesCloseNothing(MARKER, Preserved(["a"]), n);
    BlockWith(Copies(Preserved(["a"]), n));
  }

  lemma {:induction false} GrowsOnce(text: string, tail: seq<Message>, cfg: Config, budget: Option<Allocation>)
    requires Contains(text, MARKER) && Thoughts(text) == ["a"] && |tail| == cfg.placeholderKeepRecent
    ensures Level2Run([Said(text)] + tail, cfg, budget) == [Said(text + Preserved(["a"]))] + tail
  {
    var limit := SummaryLimit([Said(text)] + tail, cfg, budget);
    OneMessage(Said(text));
    CompactAlone(Said(text), limit);
    AloneInReach(Said(text), tail, cfg, limit);
  }

  lemma {:induction false} GrowsByOne(tail: seq<Message>, cfg: Config, budget: Option<Allocation>, n: nat)
    requires |tail| == cfg.placeholderKeepRecent
    ensures Level2Run([Said(BLOCK + Copies(Preserved(["a"]), n))] + tail, cfg, budget)
         == [Said(BLOCK + (Copies(Preserved(["a"]), n) + Preserved(["a"])))] + tail
  {
    BlockConcludes(n);
    GrowsOnce(BLOCK + Copies(Preserved(["a"]), n), tail, cfg, budget);
    Regrouped(BLOCK, Copies(Preserved(["a"]), n), Preserved(["a"]));
  }

  /** For every configuration, budget and recent tail there is a message that every further run makes longer: it
      receives its own conclusion once more each time. */
  lemma {:induction false} SurvivingBlockGrows(cfg: Config, budget: Option<Allocation>, tail: seq<Message>, n: nat)
    requires |tail| == cfg.placeholderKeepRecent
    ensures After([Said(BLOCK)] + tail, cfg, budget, n) == [Said(BLOCK + Copies(Preserved(["a"]), n))] + tail
  {
    var again := (m: seq<Message>) => Level2Run(m, cfg, budget);
    var grown := (k: nat) => [Said(BLOCK + Copies(Preserved(["a"]), k))] + tail;
    forall k: nat ensures again(grown(k)) == grown(k + 1) {
      GrowsByOne(tail, cfg, budget, k);
    }
    IterateFollows(again, grown, n);
    assert BLOCK + Copies(Preserved(["a"]), 0) == BLOCK;
  }

  lemma Regrouped(a: string, b: string, c: string)
    ensures (a + b) + c == a + (b + c)
  {
  }

  lemma {:induction false} OneConclusion()
    ensures ExtractThinking([Said(BLOCK)]) == ["a"]
  {
    NoTagWithoutItsStart(MARKER, CLOSE);
    ShortBlockConcludes(MARKER);
    OneMessage(Said(BLOCK));
  }
}
