/** Level 2: long assistant messages before the recent ones are cut to a summary, and the conclusions of their
    thinking blocks are preserved in the last of them. */
module CompactLevel2 {
  import opened Sequences
  import opened Text
  import opened Lines
  import opened Budget
  import opened Messages

  const MARKER := "...[summarized]"
  const OPEN := "<think>"
  const CLOSE := "</think>"

  // ---- Thinking conclusions ----

  function LastNonBlank(lines: seq<string>): string {
    if |lines| == 0 then ""
    else
      var line := Trim(lines[|lines| - 1]);
      if line != "" then line else LastNonBlank(lines[..|lines| - 1])
  }

  /** The conclusion of a block: its last non-blank line, trimmed. */
  function LastSentence(block: string): string {
    LastNonBlank(Split(block))
  }

  /** What a closed block contributes: its conclusion, cut to 200 characters, if there is one. */
  function Conclusion(inner: string): seq<string> {
    var block := Trim(inner);
    if block == "" || LastSentence(block) == "" then [] else [Take(LastSentence(block), 200)]
  }

  /** The conclusions of the closed thinking blocks of a text, in order; an unclosed block ends the search. */
  function Thoughts(s: string): seq<string>
    decreases |s|
  {
    match Find(s, OPEN)
    case None => []
    case Some(p) => ThoughtsFromOpen(s[p + |OPEN|..])
  }

  /** The same, from just after an opening tag. */
  function ThoughtsFromOpen(after: string): seq<string>
    decreases |after|
  {
    match Find(after, CLOSE)
    case None => []
    case Some(e) => Conclusion(after[..e]) + Thoughts(after[e + |CLOSE|..])
  }

  function MessageThoughts(m: Message): seq<string> {
    if m.role.Assistant? then Thoughts(m.content) else []
  }

  function Gather(messages: seq<Message>, f: Message -> seq<string>): seq<string> {
    if |messages| == 0 then [] else Gather(messages[..|messages| - 1], f) + f(messages[|messages| - 1])
  }

  function AllThoughts(messages: seq<Message>): seq<string> {
    Gather(messages, m => MessageThoughts(m))
  }

  const MAX_THOUGHTS := 3

  function ExtractThinking(messages: seq<Message>): seq<string> {
    if |AllThoughts(messages)| <= MAX_THOUGHTS then AllThoughts(messages) else AllThoughts(messages)[..MAX_THOUGHTS]
  }

  // ---- The rewrite ----

  predicate Overlong(m: Message, limit: nat) {
    m.role.Assistant? && !Contains(m.content, MARKER) && |m.content| > limit
  }

  function Shorten(m: Message, limit: nat): Message {
    if Overlong(m, limit) then m.(content := m.content[..limit] + MARKER) else m
  }

  function ShortenAll(messages: seq<Message>, limit: nat): (r: seq<Message>)
    ensures |r| == |messages|
  {
    seq(|messages|, i requires 0 <= i < |messages| => Shorten(messages[i], limit))
  }

  function Bullets(thoughts: seq<string>): seq<string> {
    seq(|thoughts|, i requires 0 <= i < |thoughts| => "- " + thoughts[i])
  }

  function Preserved(thoughts: seq<string>): string {
    "\n[Preserved Thinking]\n" + Join(Bullets(thoughts))
  }

  /** Append to the last assistant message, if there is one. */
  function AppendToLastAssistant(messages: seq<Message>, text: string): (r: seq<Message>)
    ensures |r| == |messages|
  {
    if |messages| == 0 then []
    else
      var n := |messages| - 1;
      var last := messages[n];
      if last.role.Assistant? then messages[..n] + [last.(content := last.content + text)]
      else AppendToLastAssistant(messages[..n], text) + [last]
  }

  function CompactPrefix(messages: seq<Message>, limit: nat): (r: seq<Message>)
    ensures |r| == |messages|
  {
    var thoughts := ExtractThinking(messages);
    if |thoughts| == 0 then ShortenAll(messages, limit)
    else AppendToLastAssistant(ShortenAll(messages, limit), Preserved(thoughts))
  }

  /** The prefix level 2 works on. */
  function Reach(messages: seq<Message>, cfg: Config): (n: nat)
    ensures n <= |messages|
  {
    if |messages| <= cfg.placeholderKeepRecent then 0 else |messages| - cfg.placeholderKeepRecent
  }

  function Level2(messages: seq<Message>, cfg: Config, limit: nat): (r: seq<Message>)
    ensures |r| == |messages|
  {
    var n := Reach(messages, cfg);
    CompactPrefix(messages[..n], limit) + messages[n..]
  }

  /** A summary axis over its grant tightens the limit to seven tenths, but not below one character. */
  function SummaryLimit(messages: seq<Message>, cfg: Config, budget: Option<Allocation>): nat {
    if budget.Some?
       && AxisTokens(messages, |messages|, cfg.placeholderKeepRecent, Summary)
          > budget.value.summary + OverflowTolerance(budget.value.total)
    then Max(cfg.summaryMaxChars * 7 / 10, 1)
    else cfg.summaryMaxChars
  }

  /** The limit is tightened exactly when the summary axis is one that overflows in the whole conversation, to seven
      tenths rounded down, and never below one character. */
  lemma TightenedExactly(messages: seq<Message>, cfg: Config, budget: Option<Allocation>)
    ensures var limit, full := SummaryLimit(messages, cfg, budget), cfg.summaryMaxChars;
            if budget.Some?
               && Overflows(UsageUpTo(messages, |messages|, cfg.placeholderKeepRecent), budget.value, Summary)
            then limit >= 1 && 7 * full < 10 * (limit + 1) && (limit > 1 ==> 10 * limit <= 7 * full)
            else limit == full
  {
  }

  // ---- Frame ----

  lemma {:induction false} AppendFrame(messages: seq<Message>, text: string, i: nat)
    requires i < |messages|
    ensures var r := AppendToLastAssistant(messages, text);
            && r[i] == messages[i].(content := r[i].content)
            && (r[i] == messages[i] || (messages[i].role.Assistant? && r[i].content == messages[i].content + text))
  {
    if !messages[|messages| - 1].role.Assistant? && i < |messages| - 1 {
      AppendFrame(messages[..|messages| - 1], text, i);
    }
  }

  /** Count, roles, identifiers, attachments, every non-assistant message and the recent suffix are untouched. */
  lemma {:induction false} Level2Frame(messages: seq<Message>, cfg: Config, limit: nat, i: nat)
    requires i < |messages|
    ensures var r := Level2(messages, cfg, limit);
            && r[i] == messages[i].(content := r[i].content)
            && (r[i] != messages[i] ==> messages[i].role.Assistant? && i < |messages| - cfg.placeholderKeepRecent)
  {
    var n := Reach(messages, cfg);
    if i < n {
      var prefix := messages[..n];
      if |ExtractThinking(prefix)| > 0 {
        AppendFrame(ShortenAll(prefix, limit), Preserved(ExtractThinking(prefix)), i);
      }
    }
  }

  ghost predicate LastAssistant(messages: seq<Message>, i: nat) {
    i < |messages| && messages[i].role.Assistant? && forall j :: i < j < |messages| ==> !messages[j].role.Assistant?
  }

  lemma {:induction false} AppendOnlyToLast(messages: seq<Message>, text: string, i: nat)
    requires i < |messages|
    ensures AppendToLastAssistant(messages, text)[i].content
         == messages[i].content + (if LastAssistant(messages, i) then text else "")
  {
    var n := |messages| - 1;
    assert messages[i].content + "" == messages[i].content;
    if messages[n].role.Assistant? {
      assert i < n ==> !LastAssistant(messages, i);
    } else if i < n {
      AppendOnlyToLast(messages[..n], text, i);
      assert LastAssistant(messages, i) <==> LastAssistant(messages[..n], i);
    }
  }

  /** What becomes of every message in reach: long unmarked assistant messages are cut and marked, and the last
      assistant message alone receives the preserved conclusions, at most three and only if there are any. */
  lemma {:induction false} PrefixContents(prefix: seq<Message>, limit: nat, i: nat)
    requires i < |prefix|
    ensures var thoughts := ExtractThinking(prefix);
            && |thoughts| <= 3
            && CompactPrefix(prefix, limit)[i].content
               == (if prefix[i].role.Assistant? && |prefix[i].content| > limit
                      && !Contains(prefix[i].content, "...[summarized]")
                   then prefix[i].content[..limit] + "...[summarized]" else prefix[i].content)
                  + (if |thoughts| > 0 && LastAssistant(prefix, i) then Preserved(thoughts) else "")
  {
    var short := ShortenAll(prefix, limit);
    assert short[i].content + "" == short[i].content;
    assert LastAssistant(short, i) <==> LastAssistant(prefix, i) by {
      assert forall j :: 0 <= j < |prefix| ==> short[j].role == prefix[j].role;
    }
    if |ExtractThinking(prefix)| > 0 {
      AppendOnlyToLast(short, Preserved(ExtractThinking(prefix)), i);
    }
  }

  // ---- When level 2 changes nothing ----

  ghost predicate Settled(prefix: seq<Message>, limit: nat) {
    && |AllThoughts(prefix)| == 0
    && forall i :: 0 <= i < |prefix| ==> !Overlong(prefix[i], limit)
  }

  lemma OccursInPrefix(s: string, t: string, pattern: string, i: nat)
    requires OccursAt(s, pattern, i)
    ensures Contains(s + t, pattern)
  {
    assert (s + t)[i..i + |pattern|] == s[i..i + |pattern|];
    assert OccursAt(s + t, pattern, i);
  }

  lemma MarkedAfterCut(s: string, rest: string)
    ensures Contains(s + MARKER + rest, MARKER)
  {
    assert (s + MARKER)[|s|..|s| + |MARKER|] == MARKER;
    OccursInPrefix(s + MARKER, rest, MARKER, |s|);
  }

  /** A shortened message is different from the original, even with text appended: the marker is new. */
  lemma ShortenedDiffers(m: Message, limit: nat, text: string)
    requires Overlong(m, limit)
    ensures Shorten(m, limit).content + text != m.content
    ensures Shorten(m, limit) != m
    ensures !Overlong(Shorten(m, limit), limit)
  {
    MarkedAfterCut(m.content[..limit], text);
    MarkedAfterCut(m.content[..limit], "");
    assert m.content[..limit] + MARKER + "" == m.content[..limit] + MARKER;
  }

  lemma {:induction false} ThoughtsNeedAssistant(messages: seq<Message>)
    requires |AllThoughts(messages)| > 0
    ensures exists i :: 0 <= i < |messages| && messages[i].role.Assistant?
  {
    if |messages| > 0 && !messages[|messages| - 1].role.Assistant? {
      ThoughtsNeedAssistant(messages[..|messages| - 1]);
      var i :| 0 <= i < |messages| - 1 && messages[..|messages| - 1][i].role.Assistant?;
      assert messages[i].role.Assistant?;
    }
  }

  lemma {:induction false} AppendReachesAnAssistant(messages: seq<Message>, text: string) returns (i: nat)
    requires exists j :: 0 <= j < |messages| && messages[j].role.Assistant?
    ensures i < |messages| && messages[i].role.Assistant?
    ensures AppendToLastAssistant(messages, text)[i].content == messages[i].content + text
  {
    i := |messages| - 1;
    if !messages[i].role.Assistant? {
      i := AppendReachesAnAssistant(messages[..i], text);
    }
  }

  /** Changing nothing, exactly: no conclusion to preserve, and every long assistant message already summarised. */
  lemma {:induction false} PrefixFixpoint(prefix: seq<Message>, limit: nat)
    ensures CompactPrefix(prefix, limit) == prefix <==> Settled(prefix, limit)
  {
    var short, r := ShortenAll(prefix, limit), CompactPrefix(prefix, limit);
    var thoughts := ExtractThinking(prefix);
    var text := Preserved(thoughts);
    if Settled(prefix, limit) {
      assert short == prefix;
    } else if i :| 0 <= i < |prefix| && Overlong(prefix[i], limit) {
      ShortenedDiffers(prefix[i], limit, text);
      if |thoughts| > 0 {
        AppendFrame(short, text, i);
      }
      assert r[i] != prefix[i];
    } else {
      assert short == prefix;
      ThoughtsNeedAssistant(prefix);
      var i := AppendReachesAnAssistant(prefix, text);
      assert r[i].content == prefix[i].content + text;
    }
  }

  lemma {:induction false} Level2Fixpoint(messages: seq<Message>, cfg: Config, limit: nat)
    ensures Level2(messages, cfg, limit) == messages <==> Settled(messages[..Reach(messages, cfg)], limit)
  {
    var n := Reach(messages, cfg);
    var prefix := messages[..n];
    PrefixFixpoint(prefix, limit);
    assert messages == prefix + messages[n..];
    assert Level2(messages, cfg, limit)[..n] == CompactPrefix(prefix, limit);
  }
}
