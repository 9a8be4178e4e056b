/** The conclusions of thinking blocks under the two things level 2 does to a text: cutting it and appending to it. */
module CompactLevel2Thoughts {
  import opened Sequences
  import opened Text
  import opened Lines
  import opened Messages
  import opened CompactLevel2

  // ---- Cutting a text invents no conclusion ----

  /** A tag found in a cut text lies in the kept part, so it is found at the same place in the original. */
  lemma {:induction false} FindInCut(s: string, k: nat, pattern: string)
    requires k <= |s| && |pattern| > 0
    requires pattern[0] !in MARKER && pattern[|pattern| - 1] !in MARKER
    ensures var cut := s[..k] + MARKER;
            Find(cut, pattern).Some? ==>
              Find(s, pattern) == Find(cut, pattern) && Find(s, pattern).value + |pattern| <= k
  {
    var cut := s[..k] + MARKER;
    forall i: nat | OccursAt(cut, pattern, i) ensures i + |pattern| <= k && OccursAt(s, pattern, i) {
      assert cut[i + |pattern| - 1] == pattern[|pattern| - 1];
      assert forall j :: k <= j < |cut| ==> cut[j] in MARKER;
      assert cut[i..i + |pattern|] == s[i..i + |pattern|];
    }
    forall i: nat | OccursAt(s, pattern, i) && i + |pattern| <= k ensures OccursAt(cut, pattern, i) {
      assert cut[i..i + |pattern|] == s[i..i + |pattern|];
    }
  }

  lemma TagsNotInMarker()
    ensures '<' !in MARKER && '>' !in MARKER
    ensures OPEN[0] == '<' && OPEN[|OPEN| - 1] == '>' && CLOSE[0] == '<' && CLOSE[|CLOSE| - 1] == '>'
  {
  }

  lemma FindTagInCut(s: string, k: nat, tag: string)
    requires k <= |s| && (tag == OPEN || tag == CLOSE)
    ensures var found := Find(s[..k] + MARKER, tag);
            found.Some? ==> Find(s, tag) == found && found.value + |tag| <= k
  {
    TagsNotInMarker();
    FindInCut(s, k, tag);
  }

  lemma ThoughtsAfterOpen(s: string, p: nat)
    requires Find(s, OPEN).Some? && p == Find(s, OPEN).value + 7
    ensures p <= |s| && Thoughts(s) == ThoughtsFromOpen(s[p..])
  {
  }

  /** Cutting a text keeps an initial part of its conclusions and invents none. */
  lemma {:induction false} CutThoughts(s: string, k: nat)
    requires k <= |s|
    ensures Thoughts(s[..k] + MARKER) <= Thoughts(s)
    decreases |s|, 0
  {
    var cut := s[..k] + MARKER;
    FindTagInCut(s, k, OPEN);
    if Find(cut, OPEN).Some? {
      var p := Find(cut, OPEN).value + |OPEN|;
      CutPieces(s, k, 0, p);
      CutThoughtsFromOpen(s[p..], k - p);
      ThoughtsAfterOpen(cut, p);
      ThoughtsAfterOpen(s, p);
    }
  }

  lemma {:induction false} CutThoughtsFromOpen(after: string, k: nat)
    requires k <= |after|
    ensures ThoughtsFromOpen(after[..k] + MARKER) <= ThoughtsFromOpen(after)
    decreases |after|, 1
  {
    var cut := after[..k] + MARKER;
    FindTagInCut(after, k, CLOSE);
    if Find(cut, CLOSE).Some? {
      var e := Find(cut, CLOSE).value;
      var q := e + |CLOSE|;
      CutPieces(after, k, e, q);
      CutThoughts(after[q..], k - q);
      PrefixAfter(Conclusion(after[..e]), Thoughts(cut[q..]), Thoughts(after[q..]));
    }
  }

  lemma CutPieces(after: string, k: nat, e: nat, q: nat)
    requires e <= q <= k <= |after|
    ensures var cut := after[..k] + MARKER;
            cut[..e] == after[..e] && cut[q..] == after[q..][..k - q] + MARKER
  {
  }

  lemma PrefixAfter(head: seq<string>, part: seq<string>, whole: seq<string>)
    requires part <= whole
    ensures head + part <= head + whole
  {
  }

  // ---- A preserved conclusion closes no block ----

  lemma LineContained(block: string, k: nat)
    requires k < |Split(block)|
    ensures Contains(block, Split(block)[k])
  {
    JoinSplit(block);
    JoinContainsLine(Split(block), k);
  }

  lemma {:induction false} LastNonBlankIsALine(lines: seq<string>) returns (k: nat)
    requires LastNonBlank(lines) != ""
    ensures k < |lines| && LastNonBlank(lines) == Trim(lines[k])
  {
    k := |lines| - 1;
    if Trim(lines[k]) == "" {
      k := LastNonBlankIsALine(lines[..k]);
    }
  }

  lemma {:induction false} ConclusionContained(inner: string, x: string)
    requires x in Conclusion(inner)
    ensures Contains(inner, x)
  {
    var block := Trim(inner);
    var k := LastNonBlankIsALine(Split(block));
    var line := Split(block)[k];
    TrimContained(inner);
    LineContained(block, k);
    TrimContained(line);
    ContainsPrefix(Trim(line), x);
    ContainsTransitive(line, Trim(line), x);
    ContainsTransitive(block, line, x);
    ContainsTransitive(inner, block, x);
  }

  lemma NoneBeforeTheFirst(s: string, pattern: string)
    requires |pattern| > 0 && Find(s, pattern).Some?
    ensures !Contains(s[..Find(s, pattern).value], pattern)
  {
    var e := Find(s, pattern).value;
    forall i: nat | i <= e && OccursAt(s[..e], pattern, i) ensures false {
      assert OccursAt(s, s[..e], 0);
      OccursWithin(s, s[..e], pattern, 0, i);
    }
  }

  lemma {:induction false} ThoughtsHoldNoClose(s: string, x: string)
    requires x in Thoughts(s)
    ensures !Contains(x, CLOSE)
    decreases |s|, 0
  {
    ThoughtsFromOpenHoldNoClose(s[Find(s, OPEN).value + |OPEN|..], x);
  }

  lemma {:induction false} ThoughtsFromOpenHoldNoClose(after: string, x: string)
    requires x in ThoughtsFromOpen(after)
    ensures !Contains(x, CLOSE)
    decreases |after|, 1
  {
    var e := Find(after, CLOSE).value;
    if x in Conclusion(after[..e]) {
      NoneBeforeTheFirst(after, CLOSE);
      ConclusionContained(after[..e], x);
      if Contains(x, CLOSE) {
        ContainsTransitive(after[..e], x, CLOSE);
      }
    } else {
      ThoughtsHoldNoClose(after[e + |CLOSE|..], x);
    }
  }

  lemma {:induction false} GatherMember(messages: seq<Message>, f: Message -> seq<string>, x: string)
    ensures x in Gather(messages, f) <==> exists i :: 0 <= i < |messages| && x in f(messages[i])
  {
    if |messages| > 0 {
      GatherMember(messages[..|messages| - 1], f, x);
    }
  }

  lemma {:induction false} ExtractedHoldNoClose(messages: seq<Message>, x: string)
    requires x in ExtractThinking(messages)
    ensures !Contains(x, CLOSE)
  {
    GatherMember(messages, (m: Message) => MessageThoughts(m), x);
    var i :| 0 <= i < |messages| && x in MessageThoughts(messages[i]);
    ThoughtsHoldNoClose(messages[i].content, x);
  }

  lemma {:induction false} JoinHoldsNo(lines: seq<string>, pattern: string)
    requires |pattern| > 0 && '\n' !in pattern
    requires forall i :: 0 <= i < |lines| ==> !Contains(lines[i], pattern)
    ensures !Contains(Join(lines), pattern)
  {
    if |lines| == 0 {
      assert forall i: nat :: !OccursAt("", pattern, i);
    } else if |lines| > 1 {
      var n := |lines| - 1;
      JoinHoldsNo(lines[..n], pattern);
      SeparatedContains(Join(lines[..n]), '\n', lines[n], pattern);
      assert Join(lines) == Join(lines[..n]) + ['\n'] + lines[n];
    }
  }

  lemma FirstCharacterIn(s: string, pattern: string, i: nat)
    requires |pattern| > 0 && OccursAt(s, pattern, i)
    ensures pattern[0] in s
  {
    assert s[i] == pattern[0];
  }

  lemma {:induction false} NoTagWithoutItsStart(s: string, pattern: string)
    requires |pattern| > 0 && pattern[0] !in s
    ensures !Contains(s, pattern)
  {
    forall i: nat | i <= |s| && OccursAt(s, pattern, i) ensures false {
      FirstCharacterIn(s, pattern, i);
    }
  }

  /** A pattern that the wording around the preserved conclusions holds no part of. */
  ghost predicate ForeignToBullets(pattern: string) {
    && |pattern| > 0 && '\n' !in pattern && ' ' !in pattern
    && pattern[0] !in "-" && pattern[0] !in "\n[Preserved Thinking]"
  }

  lemma {:induction false} BulletHoldsNo(thought: string, pattern: string)
    requires ForeignToBullets(pattern) && !Contains(thought, pattern)
    ensures !Contains("- " + thought, pattern)
  {
    NoTagWithoutItsStart("-", pattern);
    SeparatedContains("-", ' ', thought, pattern);
    assert "- " + thought == "-" + [' '] + thought;
  }

  lemma {:induction false} PreservedHoldsNo(thoughts: seq<string>, pattern: string)
    requires ForeignToBullets(pattern) && forall x :: x in thoughts ==> !Contains(x, pattern)
    ensures !Contains(Preserved(thoughts), pattern)
  {
    forall i | 0 <= i < |thoughts| ensures !Contains(Bullets(thoughts)[i], pattern) {
      BulletHoldsNo(thoughts[i], pattern);
    }
    var header := "\n[Preserved Thinking]";
    var body := Join(Bullets(thoughts));
    JoinHoldsNo(Bullets(thoughts), pattern);
    NoTagWithoutItsStart(header, pattern);
    SeparatedContains(header, '\n', body, pattern);
    assert Preserved(thoughts) == header + ['\n'] + body;
  }

  /** A text that completes no tag of the text it is appended to and holds no closing tag of its own. */
  ghost predicate ClosesNothing(text: string) {
    |text| > 0 && text[0] !in OPEN && text[0] !in CLOSE && !Contains(text, CLOSE)
  }

  lemma {:induction false} PreservedClosesNothing(messages: seq<Message>)
    ensures ClosesNothing(Preserved(ExtractThinking(messages)))
  {
    var thoughts := ExtractThinking(messages);
    forall x | x in thoughts ensures !Contains(x, CLOSE) {
      ExtractedHoldNoClose(messages, x);
    }
    PreservedHoldsNo(thoughts, CLOSE);
  }

  // ---- So appending it adds and removes no conclusion ----

  lemma {:induction false} FindInAppended(s: string, t: string, tag: string)
    requires |t| > 0 && t[0] !in tag && |tag| > 0
    ensures Find(s, tag).Some? ==> Find(s + t, tag) == Find(s, tag)
    ensures Find(s, tag).None? && Find(s + t, tag).Some? ==> Find(s + t, tag).value > |s|
  {
    forall i: nat | i <= |s| ensures OccursAt(s + t, tag, i) <==> OccursAt(s, tag, i) {
      if i + |tag| <= |s| {
        assert (s + t)[i..i + |tag|] == s[i..i + |tag|];
      } else if OccursAt(s + t, tag, i) {
        SeamCrossed(s, t, tag, i);
      }
    }
    if Find(s, tag).Some? {
      assert OccursAt(s + t, tag, Find(s, tag).value);
    }
  }

  lemma SeamCrossed(s: string, t: string, tag: string, i: nat)
    requires |t| > 0 && OccursAt(s + t, tag, i) && i <= |s| < i + |tag|
    ensures t[0] in tag
  {
    assert tag[|s| - i] == (s + t)[|s|];
  }

  lemma OccursInAppended(s: string, t: string, pattern: string, i: nat)
    requires i >= |s| && OccursAt(s + t, pattern, i)
    ensures Contains(t, pattern)
  {
    assert t[i - |s|..i - |s| + |pattern|] == (s + t)[i..i + |pattern|];
    OccursContained(t, pattern, i - |s|);
  }

  lemma SuffixContained(s: string, i: nat)
    requires i <= |s|
    ensures Contains(s, s[i..])
  {
    assert OccursAt(s, s[i..], i);
  }

  lemma {:induction false} UnclosedHasNoThoughts(after: string)
    requires !Contains(after, CLOSE)
    ensures ThoughtsFromOpen(after) == []
  {
    if Find(after, CLOSE).Some? {
      OccursContained(after, CLOSE, Find(after, CLOSE).value);
    }
  }

  lemma {:induction false} NothingClosedNoThoughts(s: string)
    requires !Contains(s, CLOSE)
    ensures Thoughts(s) == []
  {
    if Find(s, OPEN).Some? {
      var i := Find(s, OPEN).value + |OPEN|;
      SuffixContained(s, i);
      if Contains(s[i..], CLOSE) {
        ContainsTransitive(s, s[i..], CLOSE);
      }
      UnclosedHasNoThoughts(s[i..]);
    }
  }

  lemma {:induction false} OpenedInText(s: string, t: string, p: nat)
    requires !Contains(t, CLOSE) && |s| <= p <= |s + t|
    ensures ThoughtsFromOpen((s + t)[p..]) == []
  {
    assert (s + t)[p..] == t[p - |s|..];
    SuffixContained(t, p - |s|);
    if Contains(t[p - |s|..], CLOSE) {
      ContainsTransitive(t, t[p - |s|..], CLOSE);
    }
    UnclosedHasNoThoughts(t[p - |s|..]);
  }

  /** The conclusions of a text are those of the text it extends. */
  lemma {:induction false} AppendedThoughts(s: string, t: string)
    requires ClosesNothing(t)
    ensures Thoughts(s + t) == Thoughts(s)
    decreases |s|, 0
  {
    FindInAppended(s, t, OPEN);
    if Find(s, OPEN).Some? {
      var p := Find(s, OPEN).value + |OPEN|;
      assert (s + t)[p..] == s[p..] + t;
      AppendedThoughtsFromOpen(s[p..], t);
    } else if Find(s + t, OPEN).Some? {
      OpenedInText(s, t, Find(s + t, OPEN).value + |OPEN|);
    }
  }

  lemma {:induction false} AppendedThoughtsFromOpen(after: string, t: string)
    requires ClosesNothing(t)
    ensures ThoughtsFromOpen(after + t) == ThoughtsFromOpen(after)
    decreases |after|, 1
  {
    FindInAppended(after, t, CLOSE);
    if Find(after, CLOSE).Some? {
      var e := Find(after, CLOSE).value;
      var q := e + |CLOSE|;
      assert (after + t)[..e] == after[..e] && (after + t)[q..] == after[q..] + t;
      AppendedThoughts(after[q..], t);
    } else if Find(after + t, CLOSE).Some? {
      var i := Find(after + t, CLOSE).value;
      OccursInAppended(after, t, CLOSE, i);
    }
  }

  // ---- Cutting a text it was appended to ----

  lemma {:induction false} OneMoreClosesNothing(before: string, text: string)
    requires !Contains(before, CLOSE) && ClosesNothing(text)
    ensures !Contains(before + text, CLOSE)
  {
    SuffixContained(text, 1);
    if Contains(text[1..], CLOSE) {
      ContainsTransitive(text, text[1..], CLOSE);
    }
    SeparatedContains(before, text[0], text[1..], CLOSE);
    assert before + text == before + [text[0]] + text[1..];
  }

  lemma MarkerClosesNothing()
    ensures ClosesNothing(MARKER)
  {
    TagsNotInMarker();
    NoTagWithoutItsStart(MARKER, CLOSE);
  }

  lemma {:induction false} CutClosesNothing(t: string, k: nat)
    requires ClosesNothing(t) && k <= |t|
    ensures ClosesNothing(t[..k] + MARKER)
  {
    MarkerClosesNothing();
    ContainsPrefix(t, t[..k]);
    if Contains(t[..k], CLOSE) {
      ContainsTransitive(t, t[..k], CLOSE);
    }
    OneMoreClosesNothing(t[..k], MARKER);
  }

  /** A cut past the end of the original text leaves its conclusions alone. */
  lemma {:induction false} CutAppendedThoughts(s: string, t: string, limit: nat)
    requires ClosesNothing(t) && |s| <= limit <= |s + t|
    ensures Thoughts((s + t)[..limit] + MARKER) == Thoughts(s)
  {
    var rest := t[..limit - |s|] + MARKER;
    CutClosesNothing(t, limit - |s|);
    AppendedThoughts(s, rest);
    assert (s + t)[..limit] + MARKER == s + rest;
  }

  // ---- Every conclusion is part of its text ----

  lemma {:induction false} ThoughtContained(s: string, x: string)
    requires x in Thoughts(s)
    ensures Contains(s, x)
    decreases |s|, 0
  {
    var p := Find(s, OPEN).value + |OPEN|;
    ThoughtFromOpenContained(s[p..], x);
    SuffixContained(s, p);
    ContainsTransitive(s, s[p..], x);
  }

  lemma {:induction false} ThoughtFromOpenContained(after: string, x: string)
    requires x in ThoughtsFromOpen(after)
    ensures Contains(after, x)
    decreases |after|, 1
  {
    var e := Find(after, CLOSE).value;
    var q := e + |CLOSE|;
    if x in Conclusion(after[..e]) {
      ConclusionContained(after[..e], x);
      ContainsPrefix(after, after[..e]);
      ContainsTransitive(after, after[..e], x);
    } else {
      ThoughtContained(after[q..], x);
      SuffixContained(after, q);
      ContainsTransitive(after, after[q..], x);
    }
  }

  // ---- What a closed block contributes ----

  /** Line `k` is the last that is not blank. */
  ghost predicate LastToSay(lines: seq<string>, k: nat) {
    k < |lines| && Trim(lines[k]) != "" && forall j :: k < j < |lines| ==> Trim(lines[j]) == ""
  }

  lemma {:induction false} LastNonBlankExactly(lines: seq<string>) returns (k: nat)
    ensures if forall j :: 0 <= j < |lines| ==> Trim(lines[j]) == "" then LastNonBlank(lines) == ""
            else LastToSay(lines, k) && LastNonBlank(lines) == Trim(lines[k])
  {
    k := 0;
    if |lines| > 0 {
      var n := |lines| - 1;
      if Trim(lines[n]) != "" {
        k := n;
      } else {
        k := LastNonBlankExactly(lines[..n]);
      }
    }
  }

  /** The conclusion of a block is its last line that is not blank, trimmed. */
  lemma {:induction false} LastSentenceExactly(block: string) returns (k: nat)
    ensures var lines := Split(block);
            if forall j :: 0 <= j < |lines| ==> Trim(lines[j]) == "" then LastSentence(block) == ""
            else LastToSay(lines, k) && LastSentence(block) == Trim(lines[k]) != ""
  {
    k := LastNonBlankExactly(Split(block));
  }

  lemma {:induction false} OnlyOneIsLast(lines: seq<string>, k: nat)
    requires LastToSay(lines, k)
    ensures LastNonBlank(lines) == Trim(lines[k])
  {
    var j := LastNonBlankExactly(lines);
    assert !(forall i :: 0 <= i < |lines| ==> Trim(lines[i]) == "");
    assert j == k;
  }

  lemma FindInFront(s: string, t: string, pattern: string)
    requires Find(s, pattern).Some?
    ensures Find(s + t, pattern) == Find(s, pattern)
  {
    var p := Find(s, pattern).value;
    forall i: nat | i <= p ensures OccursAt(s + t, pattern, i) <==> OccursAt(s, pattern, i) {
      if i + |pattern| <= |s| {
        assert (s + t)[i..i + |pattern|] == s[i..i + |pattern|];
      }
    }
    assert OccursAt(s + t, pattern, p);
  }

  lemma FromClose(inner: string, rest: string)
    requires Find(inner + CLOSE, CLOSE) == Some(|inner|)
    ensures ThoughtsFromOpen(inner + CLOSE + rest) == Conclusion(inner) + Thoughts(rest)
  {
    var after := inner + CLOSE + rest;
    FindInFront(inner + CLOSE, rest, CLOSE);
    assert after[..|inner|] == inner && after[|inner| + |CLOSE|..] == rest;
  }

  /** A text up to its first closed block says what the block concludes, then what the rest says. */
  lemma {:induction false} BlockThenRest(before: string, inner: string, rest: string)
    requires Find(before + OPEN, OPEN) == Some(|before|) && Find(inner + CLOSE, CLOSE) == Some(|inner|)
    ensures Thoughts(before + OPEN + (inner + CLOSE + rest)) == Conclusion(inner) + Thoughts(rest)
  {
    var s := before + OPEN + (inner + CLOSE + rest);
    FindInFront(before + OPEN, inner + CLOSE + rest, OPEN);
    FromClose(inner, rest);
    assert s[|before| + |OPEN|..] == inner + CLOSE + rest;
  }

  /** The block's last line that is not blank, cut to 200 characters, is the conclusion it contributes. */
  lemma {:induction false} ClosedBlockConcludes(before: string, inner: string, rest: string, k: nat)
    requires Find(before + OPEN, OPEN) == Some(|before|) && Find(inner + CLOSE, CLOSE) == Some(|inner|)
    requires LastToSay(Split(Trim(inner)), k)
    ensures Thoughts(before + OPEN + (inner + CLOSE + rest))
         == [Take(Trim(Split(Trim(inner))[k]), 200)] + Thoughts(rest)
  {
    BlockThenRest(before, inner, rest);
    OnlyOneIsLast(Split(Trim(inner)), k);
    if Trim(inner) == "" {
      NothingToSay(k);
    }
  }

  lemma NothingToSay(k: nat)
    ensures !LastToSay(Split(""), k)
  {
    assert Split("") == [""] && Trim("") == "";
  }

  /** A blank block contributes nothing. */
  lemma {:induction false} BlankBlockSaysNothing(before: string, inner: string, rest: string)
    requires Find(before + OPEN, OPEN) == Some(|before|) && Find(inner + CLOSE, CLOSE) == Some(|inner|)
    requires forall j :: 0 <= j < |Split(Trim(inner))| ==> Trim(Split(Trim(inner))[j]) == ""
    ensures Thoughts(before + OPEN + (inner + CLOSE + rest)) == Thoughts(rest)
  {
    BlockThenRest(before, inner, rest);
    var k := LastSentenceExactly(Trim(inner));
  }

  // ---- Which conclusions are preserved, and how ----

  lemma {:induction false} GatherConcat(a: seq<Message>, b: seq<Message>, f: Message -> seq<string>)
    ensures Gather(a + b, f) == Gather(a, f) + Gather(b, f)
  {
    if |b| == 0 {
      assert a + b == a;
    } else {
      var n := |b| - 1;
      assert (a + b)[..|a + b| - 1] == a + b[..n];
      GatherConcat(a, b[..n], f);
    }
  }

  /** The first three conclusions, message after message and in each message block after block. */
  lemma {:induction false} FirstThreeInOrder(a: seq<Message>, m: Message, b: seq<Message>)
    ensures AllThoughts(a + [m] + b)
         == AllThoughts(a) + (if m.role.Assistant? then Thoughts(m.content) else []) + AllThoughts(b)
    ensures var all := AllThoughts(a + [m] + b);
            ExtractThinking(a + [m] + b) <= all && |ExtractThinking(a + [m] + b)| == if |all| <= 3 then |all| else 3
  {
    var own := (x: Message) => MessageThoughts(x);
    GatherConcat(a + [m], b, own);
    GatherConcat(a, [m], own);
    assert Gather([m], own) == Gather([], own) + MessageThoughts(m) by {
      assert [m][..0] == [];
    }
  }

  lemma {:induction false} HeadedLines(heading: string, lines: seq<string>)
    requires |lines| > 0 && SingleLines(lines) && SingleLine(heading)
    ensures Split("\n" + heading + "\n" + Join(lines)) == ["", heading] + lines
  {
    var headed := [heading] + lines;
    JoinPrefixed("", headed);
    JoinPrefixed(heading, lines);
    SplitJoin([""] + headed);
    assert "" + "\n" + (heading + "\n" + Join(lines)) == "\n" + heading + "\n" + Join(lines);
    assert [""] + headed == ["", heading] + lines;
  }

  /** The text appended: the end of the line it is appended to, the heading, and one line per conclusion. */
  lemma {:induction false} PreservedLines(thoughts: seq<string>)
    requires |thoughts| > 0 && SingleLines(thoughts)
    ensures Split(Preserved(thoughts)) == ["", "[Preserved Thinking]"] + Bullets(thoughts)
    ensures forall i :: 0 <= i < |thoughts| ==> Bullets(thoughts)[i] == "- " + thoughts[i]
  {
    HeadedLines("[Preserved Thinking]", Bullets(thoughts));
    assert "\n" + "[Preserved Thinking]" + "\n" + Join(Bullets(thoughts)) == Preserved(thoughts);
  }

  lemma {:induction false} JoinPrefixed(line: string, lines: seq<string>)
    requires |lines| > 0
    ensures Join([line] + lines) == line + "\n" + Join(lines)
  {
    var n := |lines| - 1;
    assert ([line] + lines)[..n + 1] == [line] + lines[..n];
    if n > 0 {
      JoinPrefixed(line, lines[..n]);
      assert line + "\n" + Join(lines[..n]) + "\n" + lines[n] == line + "\n" + (Join(lines[..n]) + "\n" + lines[n]);
    }
  }
}
