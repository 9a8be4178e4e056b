/** Strings as sequences of Unicode scalar values, with their UTF-8 byte lengths, trimming and substring search. */
module Text {
  import opened Sequences

  function CharBytes(c: char): (n: nat)
    ensures 1 <= n <= 4
  {
    if c as int < 0x80 then 1
    else if c as int < 0x800 then 2
    else if c as int < 0x10000 then 3
    else 4
  }

  /** The code points n bytes of UTF-8 have room for: a second byte adds four bits, every further one five. */
  function Capacity(n: nat): nat {
    if n <= 1 then 128 else if n == 2 then 16 * Capacity(1) else 32 * Capacity(n - 1)
  }

  lemma CharBytesAreLeast(c: char, n: nat)
    requires 1 <= n <= 4
    ensures CharBytes(c) <= n <==> (c as int) < Capacity(n)
  {
    assert Capacity(3) == 32 * Capacity(2) && Capacity(4) == 32 * Capacity(3);
  }

  /** The length of the UTF-8 encoding. */
  function ByteLen(s: string): nat {
    if |s| == 0 then 0 else ByteLen(s[..|s| - 1]) + CharBytes(s[|s| - 1])
  }

  lemma {:induction false} ByteLenBounds(s: string)
    ensures |s| <= ByteLen(s) <= 4 * |s|
  {
    if |s| > 0 {
      ByteLenBounds(s[..|s| - 1]);
    }
  }

  lemma {:induction false} ByteLenConcat(s: string, t: string)
    ensures ByteLen(s + t) == ByteLen(s) + ByteLen(t)
  {
    if |t| == 0 {
      assert s + t == s;
    } else {
      assert (s + t)[..|s + t| - 1] == s + t[..|t| - 1];
      ByteLenConcat(s, t[..|t| - 1]);
    }
  }

  lemma {:induction false} AsciiBytes(s: string)
    requires forall i :: 0 <= i < |s| ==> s[i] as int < 0x80
    ensures ByteLen(s) == |s|
  {
    if |s| > 0 {
      AsciiBytes(s[..|s| - 1]);
    }
  }

  /** Plain text of a given length. */
  function Filler(n: nat): (s: string)
    ensures |s| == n
  {
    seq(n, i => 'x')
  }

  lemma {:induction false} FillerBytes(n: nat)
    ensures ByteLen(Filler(n)) == n
  {
    AsciiBytes(Filler(n));
  }

  /** The first `n` characters, or all of a shorter text. */
  function Take(s: string, n: nat): (r: string)
    ensures r <= s && |r| == if |s| <= n then |s| else n
  {
    if |s| <= n then s else s[..n]
  }

  // ---- White space ----

  /** The Unicode White_Space property. */
  predicate IsWhitespace(c: char) {
    var code := c as int;
    || 0x09 <= code <= 0x0D || code == 0x20 || code == 0x85 || code == 0xA0 || code == 0x1680
    || 0x2000 <= code <= 0x200A || code == 0x2028 || code == 0x2029 || code == 0x202F || code == 0x205F
    || code == 0x3000
  }

  /** The characters with that property, one by one. */
  const WHITE_SPACE: string :=
    "\t\n\U{000B}\U{000C}\r \U{0085}\U{00A0}\U{1680}\U{2000}\U{2001}\U{2002}\U{2003}\U{2004}\U{2005}\U{2006}"
    + "\U{2007}\U{2008}\U{2009}\U{200A}\U{2028}\U{2029}\U{202F}\U{205F}\U{3000}"

  lemma WhiteSpaceListed(c: char)
    ensures IsWhitespace(c) <==> c in WHITE_SPACE
  {
    if IsWhitespace(c) {
      var code := c as int;
      var k :=
        if code <= 0x0D then code - 0x09 else if code == 0x20 then 5 else if code == 0x85 then 6
        else if code == 0xA0 then 7 else if code == 0x1680 then 8 else if code <= 0x200A then code - 0x2000 + 9
        else if code <= 0x2029 then code - 0x2028 + 20 else if code == 0x202F then 22
        else if code == 0x205F then 23 else 24;
      assert WHITE_SPACE[k] == c;
    }
  }

  function TrimStart(s: string, blank: char -> bool): string {
    if |s| > 0 && blank(s[0]) then TrimStart(s[1..], blank) else s
  }

  function TrimEnd(s: string, blank: char -> bool): (r: string)
    ensures r <= s
  {
    if |s| > 0 && blank(s[|s| - 1]) then TrimEnd(s[..|s| - 1], blank) else s
  }

  function Trim(s: string): string {
    TrimEnd(TrimStart(s, IsWhitespace), IsWhitespace)
  }

  // ---- Substrings ----

  predicate OccursAt(s: string, pattern: string, i: nat) {
    i + |pattern| <= |s| && s[i..i + |pattern|] == pattern
  }

  predicate Contains(s: string, pattern: string) {
    exists i :: 0 <= i <= |s| && OccursAt(s, pattern, i)
  }

  lemma OccursContained(s: string, pattern: string, i: nat)
    requires OccursAt(s, pattern, i)
    ensures Contains(s, pattern)
  {
  }

  lemma OccursWithin(s: string, part: string, pattern: string, i: nat, j: nat)
    requires OccursAt(s, part, i) && OccursAt(part, pattern, j)
    ensures OccursAt(s, pattern, i + j)
  {
    forall k | 0 <= k < |pattern| ensures s[i + j + k] == pattern[k] {
      assert part[j..j + |pattern|][k] == part[j + k] && s[i..i + |part|][j + k] == s[i + j + k];
    }
  }

  /** Containment is transitive. */
  lemma ContainsTransitive(s: string, part: string, pattern: string)
    requires Contains(s, part) && Contains(part, pattern)
    ensures Contains(s, pattern)
  {
    var i :| 0 <= i <= |s| && OccursAt(s, part, i);
    var j :| 0 <= j <= |part| && OccursAt(part, pattern, j);
    OccursWithin(s, part, pattern, i, j);
  }

  lemma OccursInside(before: string, s: string, after: string)
    ensures OccursAt(before + s + after, s, |before|)
    ensures Contains(before + s + after, s)
  {
    assert (before + s + after)[|before|..|before| + |s|] == s;
    OccursContained(before + s + after, s, |before|);
  }

  lemma ContainsPrefix(s: string, part: string)
    requires part <= s
    ensures Contains(s, part)
  {
    assert OccursAt(s, part, 0);
  }

  ghost predicate AllBlank(s: string, blank: char -> bool) {
    forall i :: 0 <= i < |s| ==> blank(s[i])
  }

  /** What is cut off at the end is blank, and nothing blank is left there. */
  lemma {:induction false} TrimEndExactly(s: string, blank: char -> bool)
    ensures var r := TrimEnd(s, blank);
            r <= s && AllBlank(s[|r|..], blank) && (|r| > 0 ==> !blank(r[|r| - 1]))
  {
    if |s| > 0 && blank(s[|s| - 1]) {
      TrimEndExactly(s[..|s| - 1], blank);
    }
  }

  lemma {:induction false} TrimStartExactly(s: string, blank: char -> bool) returns (cut: string)
    ensures var r := TrimStart(s, blank);
            s == cut + r && AllBlank(cut, blank) && (|r| > 0 ==> !blank(r[0]))
  {
    cut := "";
    if |s| > 0 && blank(s[0]) {
      cut := TrimStartExactly(s[1..], blank);
      cut := [s[0]] + cut;
    }
  }

  /** Trimming cuts white space off both ends and leaves none there. */
  lemma {:induction false} TrimExactly(s: string) returns (before: string, after: string)
    ensures s == before + Trim(s) + after && AllBlank(before, IsWhitespace) && AllBlank(after, IsWhitespace)
    ensures |Trim(s)| > 0 ==> !IsWhitespace(Trim(s)[0]) && !IsWhitespace(Trim(s)[|Trim(s)| - 1])
  {
    before := TrimStartExactly(s, IsWhitespace);
    var started := TrimStart(s, IsWhitespace);
    TrimEndExactly(started, IsWhitespace);
    after := started[|Trim(s)|..];
    assert started == Trim(s) + after;
    assert s == before + (Trim(s) + after) == before + Trim(s) + after;
  }

  lemma {:induction false} TrimStartContained(s: string, blank: char -> bool)
    ensures Contains(s, TrimStart(s, blank))
  {
    if |s| > 0 && blank(s[0]) {
      TrimStartContained(s[1..], blank);
      OccursInside([s[0]], s[1..], "");
      assert [s[0]] + s[1..] + "" == s;
      ContainsTransitive(s, s[1..], TrimStart(s, blank));
    } else {
      ContainsPrefix(s, s);
    }
  }

  lemma TrimContained(s: string)
    ensures Contains(s, Trim(s))
  {
    var started := TrimStart(s, IsWhitespace);
    TrimStartContained(s, IsWhitespace);
    ContainsPrefix(started, Trim(s));
    ContainsTransitive(s, started, Trim(s));
  }

  /** What a text contains, it still contains up to trailing blanks when both lose theirs. */
  lemma {:induction false} TrimEndContained(s: string, part: string, blank: char -> bool)
    requires Contains(s, part)
    ensures Contains(TrimEnd(s, blank), TrimEnd(part, blank))
  {
    var i :| 0 <= i <= |s| && OccursAt(s, part, i);
    if |s| > 0 && blank(s[|s| - 1]) {
      var front := s[..|s| - 1];
      if i + |part| < |s| {
        assert front[i..i + |part|] == s[i..i + |part|];
        OccursContained(front, part, i);
        TrimEndContained(front, part, blank);
      } else if |part| > 0 {
        var shorter := part[..|part| - 1];
        assert front[i..i + |shorter|] == s[i..i + |part|][..|shorter|];
        assert part[|part| - 1] == s[|s| - 1];
        OccursContained(front, shorter, i);
        TrimEndContained(front, shorter, blank);
      } else {
        ContainsPrefix(TrimEnd(s, blank), "");
      }
    } else {
      ContainsPrefix(part, TrimEnd(part, blank));
      ContainsTransitive(s, part, TrimEnd(part, blank));
    }
  }

  lemma SeparatorCrossed(a: string, c: char, b: string, pattern: string, i: nat)
    requires OccursAt(a + [c] + b, pattern, i) && i <= |a| < i + |pattern|
    ensures c in pattern
  {
    assert pattern[|a| - i] == (a + [c] + b)[|a|];
  }

  lemma PartsContained(a: string, c: char, b: string)
    ensures Contains(a + [c] + b, a) && Contains(a + [c] + b, b)
  {
    OccursInside("", a, [c] + b);
    assert "" + a + ([c] + b) == a + [c] + b;
    OccursInside(a + [c], b, "");
    assert a + [c] + b + "" == a + [c] + b;
  }

  lemma OccurrenceInPart(a: string, c: char, b: string, pattern: string, i: nat)
    requires c !in pattern && |pattern| > 0 && OccursAt(a + [c] + b, pattern, i)
    ensures Contains(a, pattern) || Contains(b, pattern)
  {
    var s := a + [c] + b;
    if i + |pattern| <= |a| {
      assert a[i..i + |pattern|] == s[i..i + |pattern|];
      OccursContained(a, pattern, i);
    } else if i > |a| {
      assert b[i - |a| - 1..i - |a| - 1 + |pattern|] == s[i..i + |pattern|];
      OccursContained(b, pattern, i - |a| - 1);
    } else {
      SeparatorCrossed(a, c, b, pattern, i);
    }
  }

  /** No occurrence of a pattern crosses a character it does not hold. */
  lemma {:induction false} SeparatedContains(a: string, c: char, b: string, pattern: string)
    requires c !in pattern && |pattern| > 0
    ensures Contains(a + [c] + b, pattern) <==> Contains(a, pattern) || Contains(b, pattern)
  {
    var s := a + [c] + b;
    PartsContained(a, c, b);
    if Contains(a, pattern) {
      ContainsTransitive(s, a, pattern);
    } else if Contains(b, pattern) {
      ContainsTransitive(s, b, pattern);
    } else if i: nat :| i <= |s| && OccursAt(s, pattern, i) {
      OccurrenceInPart(a, c, b, pattern, i);
    }
  }

  predicate StartsWith(s: string, pattern: string) {
    OccursAt(s, pattern, 0)
  }

  /** The first place where `pattern` occurs. */
  function Find(s: string, pattern: string): (r: Option<nat>)
    ensures r.Some? ==> OccursAt(s, pattern, r.value) && forall i: nat :: i < r.value ==> !OccursAt(s, pattern, i)
    ensures r.None? ==> forall i: nat :: !OccursAt(s, pattern, i)
  {
    FindFrom(s, pattern, 0)
  }

  function FindFrom(s: string, pattern: string, from: nat): (r: Option<nat>)
    requires from <= |s| && forall i: nat :: i < from ==> !OccursAt(s, pattern, i)
    ensures r.Some? ==> OccursAt(s, pattern, r.value) && forall i: nat :: i < r.value ==> !OccursAt(s, pattern, i)
    ensures r.None? ==> forall i: nat :: !OccursAt(s, pattern, i)
    decreases |s| - from
  {
    if OccursAt(s, pattern, from) then Some(from)
    else if from == |s| then None
    else FindFrom(s, pattern, from + 1)
  }
}
