/** The line scanner that finds the numbered items of the project notes. */
module ArchiveParser {
  import opened Sequences
  import opened Text
  import opened Lines

  /** Line numbers are 1-based and inclusive, as the rewriter expects them. */
  datatype Item = Item(number: nat, body: string, size: nat, startLine: nat, endLine: nat)

  /** Python's white space: the Unicode property plus the four information separators. */
  predicate PyBlank(c: char) {
    IsWhitespace(c) || 0x1C <= c as int <= 0x1F
  }

  lemma PyBlankListed(c: char)
    ensures PyBlank(c) <==> c in WHITE_SPACE + "\U{001C}\U{001D}\U{001E}\U{001F}"
  {
    WhiteSpaceListed(c);
    if 0x1C <= c as int <= 0x1F {
      assert "\U{001C}\U{001D}\U{001E}\U{001F}"[c as int - 0x1C] == c;
    }
  }

  function StripEnd(s: string): string {
    TrimEnd(s, PyBlank)
  }

  /** `header` stands for the item-line regular expression and returns the number it captures. */
  predicate OpensItem(line: string, header: string -> Option<nat>) {
    header(line).Some? && 1 <= header(line).value <= 999
  }

  predicate IsSection(line: string) {
    StartsWith(line, "##") || StartsWith(line, "```")
  }

  predicate Stops(line: string, header: string -> Option<nat>) {
    OpensItem(line, header) || IsSection(line)
  }

  /** The first line from `from` on that ends an item, or the end of the text. */
  function NextStop(lines: seq<string>, from: nat, header: string -> Option<nat>): (r: nat)
    requires from <= |lines|
    ensures from <= r <= |lines|
    ensures r < |lines| ==> Stops(lines[r], header)
    ensures forall i :: from <= i < r ==> !Stops(lines[i], header)
    decreases |lines| - from
  {
    if from == |lines| || Stops(lines[from], header) then from else NextStop(lines, from + 1, header)
  }

  function MakeItem(number: nat, bodyLines: seq<string>, start: nat, end: nat): Item {
    var body := StripEnd(Join(bodyLines));
    Item(number, body, ByteLen(body), start + 1, end)
  }

  /** The item opened at line `start`. */
  function ItemAt(lines: seq<string>, start: nat, header: string -> Option<nat>): Item
    requires start < |lines| && OpensItem(lines[start], header)
  {
    var end := NextStop(lines, start + 1, header);
    MakeItem(header(lines[start]).value, lines[start..end], start, end)
  }

  /** The items opened by the first `n` lines, one per item line, in order. */
  function ItemsUpTo(lines: seq<string>, n: nat, header: string -> Option<nat>): seq<Item>
    requires n <= |lines|
  {
    if n == 0 then []
    else
      ItemsUpTo(lines, n - 1, header)
        + (if OpensItem(lines[n - 1], header) then [ItemAt(lines, n - 1, header)] else [])
  }

  function ItemsOf(text: string, header: string -> Option<nat>): seq<Item> {
    ItemsUpTo(Split(text), |Split(text)|, header)
  }

  datatype Open = Open(number: nat, start: nat, bodyLines: seq<string>)

  /** What the scanner knows after `i` lines: an open item has collected its lines so far and met no stop. */
  ghost predicate Scanned(lines: seq<string>, i: nat, header: string -> Option<nat>, current: Option<Open>,
                          items: seq<Item>)
    requires i <= |lines|
  {
    match current
    case None => items == ItemsUpTo(lines, i, header)
    case Some(Open(number, start, bodyLines)) =>
      && start < i && OpensItem(lines[start], header) && number == header(lines[start]).value
      && bodyLines == lines[start..i]
      && (forall j :: start < j < i ==> !Stops(lines[j], header))
      && ItemsUpTo(lines, i, header) == items + [ItemAt(lines, start, header)]
  }

  /** Closing an item at a stop, or at the end, completes the list. */
  lemma {:induction false} Finalize(lines: seq<string>, i: nat, header: string -> Option<nat>, open: Open,
                                    items: seq<Item>)
    requires i <= |lines| && Scanned(lines, i, header, Some(open), items)
    requires i == |lines| || Stops(lines[i], header)
    ensures items + [MakeItem(open.number, open.bodyLines, open.start, i)] == ItemsUpTo(lines, i, header)
  {
    var end := NextStop(lines, open.start + 1, header);
    assert end == i;
  }

  lemma {:induction false} OpenLine(lines: seq<string>, i: nat, header: string -> Option<nat>, items: seq<Item>)
    requires i < |lines| && OpensItem(lines[i], header) && items == ItemsUpTo(lines, i, header)
    ensures Scanned(lines, i + 1, header, Some(Open(header(lines[i]).value, i, [lines[i]])), items)
  {
    assert lines[i..i + 1] == [lines[i]];
  }

  lemma {:induction false} PlainLine(lines: seq<string>, i: nat, header: string -> Option<nat>, current: Option<Open>,
                                     items: seq<Item>)
    requires i < |lines| && Scanned(lines, i, header, current, items)
    requires !OpensItem(lines[i], header) && (current.Some? ==> !Stops(lines[i], header))
    ensures var next := if current.None? then None
                        else Some(current.value.(bodyLines := current.value.bodyLines + [lines[i]]));
            Scanned(lines, i + 1, header, next, items)
  {
    assert ItemsUpTo(lines, i + 1, header) == ItemsUpTo(lines, i, header);
    if current.Some? {
      var start := current.value.start;
      assert lines[start..i + 1] == lines[start..i] + [lines[i]];
    }
  }

  method ParseItems(text: string, header: string -> Option<nat>) returns (items: seq<Item>)
    ensures items == ItemsOf(text, header)
  {
    var lines := Split(text);
    items := [];
    var current: Option<Open> := None;
    for i := 0 to |lines|
      invariant Scanned(lines, i, header, current, items)
    {
      items, current := ScanLine(lines, i, header, current, items);
    }
    if current.Some? {
      Finalize(lines, |lines|, header, current.value, items);
      items := items + [MakeItem(current.value.number, current.value.bodyLines, current.value.start, |lines|)];
    }
  }

  /** One line: an item line or a section header closes the open item; an item line opens the next. */
  method ScanLine(lines: seq<string>, i: nat, header: string -> Option<nat>, current: Option<Open>, items: seq<Item>)
    returns (items': seq<Item>, current': Option<Open>)
    requires i < |lines| && Scanned(lines, i, header, current, items)
    ensures Scanned(lines, i + 1, header, current', items')
  {
    items', current' := items, current;
    var line := lines[i];
    if current'.Some? && Stops(line, header) {
      Finalize(lines, i, header, current'.value, items');
      items' := items' + [MakeItem(current'.value.number, current'.value.bodyLines, current'.value.start, i)];
      current' := None;
    }
    if OpensItem(line, header) {
      OpenLine(lines, i, header, items');
      current' := Some(Open(header(line).value, i, [line]));
    } else {
      PlainLine(lines, i, header, current', items');
      if current'.Some? {
        current' := Some(current'.value.(bodyLines := current'.value.bodyLines + [line]));
      }
    }
  }

  // ---- What the parse guarantees ----

  /** Each item lies within the text and its body is its lines, joined, without trailing white space. */
  ghost predicate Faithful(lines: seq<string>, item: Item) {
    && 1 <= item.startLine <= item.endLine <= |lines|
    && item.body == StripEnd(Join(lines[item.startLine - 1..item.endLine]))
    && item.size == ByteLen(item.body)
  }

  ghost predicate InOrder(items: seq<Item>) {
    forall i, j :: 0 <= i < j < |items| ==> items[i].endLine < items[j].startLine
  }

  ghost predicate OpenedAt(lines: seq<string>, item: Item, header: string -> Option<nat>) {
    && 1 <= item.startLine <= |lines| && OpensItem(lines[item.startLine - 1], header)
    && item == ItemAt(lines, item.startLine - 1, header)
  }

  ghost predicate AllOpened(lines: seq<string>, items: seq<Item>, n: nat, header: string -> Option<nat>) {
    && (forall i :: 0 <= i < |items| ==> OpenedAt(lines, items[i], header) && items[i].startLine <= n)
    && (forall i, j :: 0 <= i < j < |items| ==> items[i].startLine < items[j].startLine)
  }

  lemma AppendOpened(lines: seq<string>, items: seq<Item>, n: nat, header: string -> Option<nat>, item: Item)
    requires AllOpened(lines, items, n, header) && OpenedAt(lines, item, header) && item.startLine == n + 1
    ensures AllOpened(lines, items + [item], n + 1, header)
  {
    var all := items + [item];
    forall i | 0 <= i < |all| ensures OpenedAt(lines, all[i], header) && all[i].startLine <= n + 1 {
      if i < |items| {
        assert all[i] == items[i];
      }
    }
  }

  lemma ItemsNext(lines: seq<string>, n: nat, header: string -> Option<nat>)
    requires 0 < n <= |lines|
    ensures ItemsUpTo(lines, n, header)
         == ItemsUpTo(lines, n - 1, header)
            + (if OpensItem(lines[n - 1], header) then [ItemAt(lines, n - 1, header)] else [])
  {
  }

  lemma OpenedLater(lines: seq<string>, items: seq<Item>, n: nat, header: string -> Option<nat>)
    requires n > 0 && AllOpened(lines, items, n - 1, header)
    ensures AllOpened(lines, items + [], n, header)
  {
    assert items + [] == items;
  }

  lemma OpenedWhereItStands(lines: seq<string>, i: nat, header: string -> Option<nat>)
    requires i < |lines| && OpensItem(lines[i], header)
    ensures OpenedAt(lines, ItemAt(lines, i, header), header) && ItemAt(lines, i, header).startLine == i + 1
  {
  }

  lemma OpenedNext(lines: seq<string>, before: seq<Item>, n: nat, header: string -> Option<nat>)
    requires 0 < n <= |lines| && AllOpened(lines, before, n - 1, header)
    ensures AllOpened(lines, before + (if OpensItem(lines[n - 1], header) then [ItemAt(lines, n - 1, header)] else []),
                      n, header)
  {
    if OpensItem(lines[n - 1], header) {
      OpenedWhereItStands(lines, n - 1, header);
      AppendOpened(lines, before, n - 1, header, ItemAt(lines, n - 1, header));
    } else {
      OpenedLater(lines, before, n, header);
    }
  }

  lemma {:induction false} ItemsOpened(lines: seq<string>, n: nat, header: string -> Option<nat>)
    requires n <= |lines|
    ensures AllOpened(lines, ItemsUpTo(lines, n, header), n, header)
  {
    if n > 0 {
      ItemsOpened(lines, n - 1, header);
      OpenedNext(lines, ItemsUpTo(lines, n - 1, header), n, header);
      ItemsNext(lines, n, header);
    }
  }

  lemma OpenedIsFaithful(lines: seq<string>, item: Item, header: string -> Option<nat>)
    requires OpenedAt(lines, item, header)
    ensures Faithful(lines, item)
    ensures forall k :: item.startLine <= k < |lines| && Stops(lines[k], header) ==> item.endLine <= k
  {
  }

  lemma {:induction false} ItemLinesOpen(lines: seq<string>, n: nat, header: string -> Option<nat>, i: nat)
    requires i < n <= |lines| && OpensItem(lines[i], header)
    ensures ItemAt(lines, i, header) in ItemsUpTo(lines, n, header)
  {
    if i < n - 1 {
      ItemLinesOpen(lines, n - 1, header, i);
    }
  }

  /** An item line numbered 1 to 999, a heading of the second level or deeper, or a code fence. */
  predicate EndsItem(line: string, header: string -> Option<nat>) {
    || (header(line).Some? && 1 <= header(line).value <= 999)
    || (|line| >= 2 && line[..2] == "##")
    || (|line| >= 3 && line[..3] == "```")
  }

  lemma StopsExactly(line: string, header: string -> Option<nat>)
    ensures Stops(line, header) <==> EndsItem(line, header)
  {
    assert |line| >= 2 ==> line[0..2] == line[..2];
    assert |line| >= 3 ==> line[0..3] == line[..3];
  }

  /** The body is the item's lines joined, less trailing white space and nothing else. */
  lemma {:induction false} BodyExactly(lines: seq<string>, item: Item)
    requires Faithful(lines, item)
    ensures var whole := Join(lines[item.startLine - 1..item.endLine]);
            && item.body <= whole && AllBlank(whole[|item.body|..], PyBlank)
            && (|item.body| > 0 ==> !PyBlank(item.body[|item.body| - 1]))
  {
    TrimEndExactly(Join(lines[item.startLine - 1..item.endLine]), PyBlank);
  }

  /** Every item line opens an item, every item starts at an item line and carries its number, and it runs exactly
      to the next item line, section header or end of the text. */
  lemma {:induction false} ParseComplete(text: string, header: string -> Option<nat>)
    ensures var lines := Split(text);
            && (forall i :: 0 <= i < |lines| && header(lines[i]).Some? && 1 <= header(lines[i]).value <= 999 ==>
                  exists item :: item in ItemsOf(text, header) && item.startLine == i + 1)
            && (forall item :: item in ItemsOf(text, header) ==>
                  && 1 <= item.startLine <= item.endLine <= |lines|
                  && header(lines[item.startLine - 1]) == Some(item.number) && 1 <= item.number <= 999
                  && (forall k :: item.startLine <= k < item.endLine ==> !EndsItem(lines[k], header))
                  && (item.endLine < |lines| ==> EndsItem(lines[item.endLine], header)))
  {
    var lines := Split(text);
    var items := ItemsUpTo(lines, |lines|, header);
    ItemsOpened(lines, |lines|, header);
    forall k | 0 <= k < |lines| ensures Stops(lines[k], header) <==> EndsItem(lines[k], header) {
      StopsExactly(lines[k], header);
    }
    forall i | 0 <= i < |lines| && OpensItem(lines[i], header)
      ensures exists item :: item in ItemsOf(text, header) && item.startLine == i + 1
    {
      ItemLinesOpen(lines, |lines|, header, i);
      assert ItemAt(lines, i, header).startLine == i + 1;
    }
    forall item | item in items ensures OpenedAt(lines, item, header) {
      var k :| 0 <= k < |items| && items[k] == item;
    }
  }

  /** The parsed ranges are disjoint and increasing. */
  lemma {:induction false} ParsedItems(text: string, header: string -> Option<nat>)
    ensures forall item :: item in ItemsOf(text, header) ==> Faithful(Split(text), item)
    ensures InOrder(ItemsOf(text, header))
  {
    var lines := Split(text);
    var items := ItemsUpTo(lines, |lines|, header);
    ItemsOpened(lines, |lines|, header);
    assert ItemsOf(text, header) == items;
    forall i | 0 <= i < |items|
      ensures Faithful(lines, items[i])
      ensures forall j :: i < j < |items| ==> items[i].endLine < items[j].startLine
    {
      OpenedIsFaithful(lines, items[i], header);
    }
  }
}
