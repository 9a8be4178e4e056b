/** Level 0: large tool outputs move to files and leave a stub behind, wherever in the conversation they stand. */
module CompactLevel0 {
  import opened Sequences
  import opened Text
  import opened Messages

  const DIGITS := "0123456789"

  function Decimal(n: nat): string {
    (if n < 10 then "" else Decimal(n / 10)) + [DIGITS[n % 10]]
  }

  /** The number a string of digits stands for. */
  function Number(s: string): nat
    requires forall i :: 0 <= i < |s| ==> '0' <= s[i] <= '9'
  {
    if |s| == 0 then 0 else 10 * Number(s[..|s| - 1]) + (s[|s| - 1] - '0') as nat
  }

  /** The decimal form reads back as the number. */
  lemma {:induction false} DecimalReadsBack(n: nat)
    ensures (forall i :: 0 <= i < |Decimal(n)| ==> '0' <= Decimal(n)[i] <= '9') && Number(Decimal(n)) == n
  {
    var last := DIGITS[n % 10];
    assert '0' <= last <= '9' && (last - '0') as nat == n % 10;
    if n < 10 {
      assert Decimal(n)[..0] == "";
    } else {
      DecimalReadsBack(n / 10);
      assert Decimal(n)[..|Decimal(n)| - 1] == Decimal(n / 10);
    }
  }

  /** What stays of a content saved at `path`: its first 200 characters, the path and the byte count. */
  function Stub(content: string, path: string): string {
    Take(content, 200) + "...\n[saved:" + path + "(" + Decimal(ByteLen(content)) + "c)]"
  }

  predicate Oversized(m: Message, cfg: Config) {
    m.role.Tool? && ByteLen(m.content) > cfg.largeOutputThreshold
  }

  /** `save` stands for writing a content to disk: the path it went to, or nothing when the write fails. */
  predicate Saved(m: Message, cfg: Config, save: string -> Option<string>) {
    Oversized(m, cfg) && save(m.content).Some?
  }

  function StubOf(m: Message, cfg: Config, save: string -> Option<string>): string
    requires Saved(m, cfg, save)
  {
    Stub(m.content, save(m.content).value)
  }

  function Offloaded(m: Message, cfg: Config, save: string -> Option<string>): Message {
    if Saved(m, cfg, save) then m.(content := StubOf(m, cfg, save)) else m
  }

  function Level0(messages: seq<Message>, cfg: Config, save: string -> Option<string>): (r: seq<Message>)
    ensures |r| == |messages|
  {
    seq(|messages|, i requires 0 <= i < |messages| => Offloaded(messages[i], cfg, save))
  }

  /** The files written, in order. */
  function SavedPaths(messages: seq<Message>, cfg: Config, save: string -> Option<string>): seq<string> {
    if |messages| == 0 then []
    else
      var last := messages[|messages| - 1];
      SavedPaths(messages[..|messages| - 1], cfg, save)
        + (if Saved(last, cfg, save) then [save(last.content).value] else [])
  }

  lemma SavedNext(messages: seq<Message>, i: nat, cfg: Config, save: string -> Option<string>)
    requires i < |messages|
    ensures SavedPaths(messages[..i + 1], cfg, save)
         == SavedPaths(messages[..i], cfg, save)
            + (if Saved(messages[i], cfg, save) then [save(messages[i].content).value] else [])
  {
    TakeNext(messages, i);
  }

  // ---- The length of a stub ----

  function Pow10(k: nat): (r: nat)
    ensures r > 0
  {
    if k == 0 then 1 else 10 * Pow10(k - 1)
  }

  lemma {:induction false} DecimalBytes(n: nat, k: nat)
    requires k > 0 && n < Pow10(k)
    ensures ByteLen(Decimal(n)) <= k
  {
    var front := if n < 10 then "" else Decimal(n / 10);
    ByteLenConcat(front, [DIGITS[n % 10]]);
    AsciiBytes([DIGITS[n % 10]]);
    if n >= 10 {
      assert k > 1 by {
        assert Pow10(1) == 10 * Pow10(0);
      }
      DecimalBytes(n / 10, k - 1);
    }
  }

  lemma TakeBytes(s: string, n: nat)
    ensures ByteLen(Take(s, n)) <= 4 * n
  {
    ByteLenBounds(Take(s, n));
  }

  /** A stub takes at most 815 bytes besides its path and the digits of the byte count. */
  lemma {:induction false} StubBytes(content: string, path: string, digits: nat)
    requires digits > 0 && ByteLen(content) < Pow10(digits)
    ensures ByteLen(Stub(content, path)) <= 815 + ByteLen(path) + digits
  {
    var count := Decimal(ByteLen(content));
    TakeBytes(content, 200);
    DecimalBytes(ByteLen(content), digits);
    AsciiBytes("...\n[saved:");
    AsciiBytes("(");
    AsciiBytes("c)]");
    ByteLenConcat(Take(content, 200), "...\n[saved:");
    ByteLenConcat(Take(content, 200) + "...\n[saved:", path);
    ByteLenConcat(Take(content, 200) + "...\n[saved:" + path, "(");
    ByteLenConcat(Take(content, 200) + "...\n[saved:" + path + "(", count);
    ByteLenConcat(Take(content, 200) + "...\n[saved:" + path + "(" + count, "c)]");
  }

  /** Every stub this level would write here is small enough not to be moved itself. */
  ghost predicate StubsFit(messages: seq<Message>, cfg: Config, save: string -> Option<string>) {
    forall m :: m in messages && Saved(m, cfg, save) ==> ByteLen(StubOf(m, cfg, save)) <= cfg.largeOutputThreshold
  }

  /** Paths of at most 36 bytes, the source's, and byte counts of at most 20 digits, a machine word's, fit any
      threshold from 871 on; the default is 5000. */
  lemma {:induction false} StubsFitTheDefault(messages: seq<Message>, cfg: Config, save: string -> Option<string>)
    requires cfg.largeOutputThreshold >= 871
    requires forall m :: m in messages && Saved(m, cfg, save) ==>
               ByteLen(m.content) < Pow10(20) && ByteLen(save(m.content).value) <= 36
    ensures StubsFit(messages, cfg, save)
  {
    forall m | m in messages && Saved(m, cfg, save) ensures ByteLen(StubOf(m, cfg, save)) <= cfg.largeOutputThreshold {
      StubBytes(m.content, save(m.content).value, 20);
    }
  }

  /** A stub, spelled out. */
  lemma StubSpelledOut()
    ensures Stub(Filler(250), "p") == Filler(200) + "...\n[saved:p(250c)]"
  {
    FillerBytes(250);
    assert Decimal(2) == "2" && Decimal(25) == "25" && Decimal(250) == "250";
    assert Take(Filler(250), 200) == Filler(200);
  }
}
