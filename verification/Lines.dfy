/** Splitting a text into lines at newlines and joining them back. */
module Lines {
  import opened Text

  function Split(text: string): (lines: seq<string>)
    ensures |lines| > 0
  {
    if |text| == 0 then [""]
    else
      var front, c := Split(text[..|text| - 1]), text[|text| - 1];
      if c == '\n' then front + [""]
      else front[..|front| - 1] + [front[|front| - 1] + [c]]
  }

  function Join(lines: seq<string>): string {
    if |lines| == 0 then ""
    else if |lines| == 1 then lines[0]
    else Join(lines[..|lines| - 1]) + "\n" + lines[|lines| - 1]
  }

  ghost predicate SingleLine(s: string) {
    '\n' !in s
  }

  ghost predicate SingleLines(lines: seq<string>) {
    forall i :: 0 <= i < |lines| ==> SingleLine(lines[i])
  }

  lemma {:induction false} SplitIsSingleLines(text: string)
    ensures SingleLines(Split(text))
  {
    if |text| > 0 {
      SplitIsSingleLines(text[..|text| - 1]);
    }
  }

  lemma JoinExtended(lines: seq<string>, c: char)
    requires |lines| > 0
    ensures Join(lines[..|lines| - 1] + [lines[|lines| - 1] + [c]]) == Join(lines) + [c]
  {
    var longer := lines[..|lines| - 1] + [lines[|lines| - 1] + [c]];
    assert longer[..|longer| - 1] == lines[..|lines| - 1];
  }

  lemma JoinBlank(lines: seq<string>)
    requires |lines| > 0
    ensures Join(lines + [""]) == Join(lines) + "\n"
  {
    assert (lines + [""])[..|lines|] == lines;
    assert Join(lines) + "\n" + "" == Join(lines) + "\n";
  }

  /** One more character starts a line or extends the last one. */
  lemma SplitNext(text: string)
    requires |text| > 0
    ensures var front, c := Split(text[..|text| - 1]), text[|text| - 1];
            Split(text) == if c == '\n' then front + [""] else front[..|front| - 1] + [front[|front| - 1] + [c]]
  {
  }

  /** Joining the lines of a text gives the text back. */
  lemma {:induction false} JoinSplit(text: string)
    ensures Join(Split(text)) == text
  {
    if |text| > 0 {
      var shorter, c := text[..|text| - 1], text[|text| - 1];
      JoinSplit(shorter);
      SplitNext(text);
      JoinBlank(Split(shorter));
      JoinExtended(Split(shorter), c);
      assert text == shorter + [c];
    }
  }

  lemma {:induction false} SplitAppendInLine(text: string, s: string)
    requires SingleLine(s)
    ensures var lines := Split(text);
            Split(text + s) == lines[..|lines| - 1] + [lines[|lines| - 1] + s]
  {
    var lines := Split(text);
    var last := lines[|lines| - 1];
    if |s| == 0 {
      assert text + s == text && last + s == last;
      assert lines == lines[..|lines| - 1] + [last];
    } else {
      var s', c := s[..|s| - 1], s[|s| - 1];
      SplitAppendInLine(text, s');
      assert (text + s)[..|text + s| - 1] == text + s' && (text + s)[|text + s| - 1] == c;
      assert c in s;
      assert (last + s') + [c] == last + s;
      assert (lines[..|lines| - 1] + [last + s'])[..|lines| - 1] == lines[..|lines| - 1];
    }
  }

  lemma {:induction false} SplitAfterNewline(text: string, line: string)
    requires SingleLine(line)
    ensures Split(text + "\n" + line) == Split(text) + [line]
  {
    var start := text + "\n";
    assert start[..|start| - 1] == text;
    SplitAppendInLine(start, line);
    assert Split(start) == Split(text) + [""];
    assert "" + line == line;
  }

  /** Splitting joined lines gives the lines back. */
  lemma {:induction false} SplitJoin(lines: seq<string>)
    requires |lines| > 0 && SingleLines(lines)
    ensures Split(Join(lines)) == lines
  {
    var n := |lines| - 1;
    assert lines == lines[..n] + [lines[n]];
    if n == 0 {
      SplitAppendInLine("", lines[0]);
      assert "" + lines[0] == lines[0] && Split("") == [""];
    } else {
      SplitJoin(lines[..n]);
      SplitAfterNewline(Join(lines[..n]), lines[n]);
      assert Join(lines) == Join(lines[..n]) + "\n" + lines[n];
    }
  }

  /** Every line is part of the joined text. */
  lemma {:induction false} JoinContainsLine(lines: seq<string>, k: nat)
    requires k < |lines|
    ensures Contains(Join(lines), lines[k])
  {
    var n := |lines| - 1;
    if n == 0 {
      ContainsPrefix(lines[0], lines[0]);
    } else if k == n {
      OccursInside(Join(lines[..n]) + "\n", lines[n], "");
      assert Join(lines) == Join(lines[..n]) + "\n" + lines[n] + "";
    } else {
      JoinContainsLine(lines[..n], k);
      ContainsPrefix(Join(lines), Join(lines[..n]));
      ContainsTransitive(Join(lines), Join(lines[..n]), lines[k]);
    }
  }
}
