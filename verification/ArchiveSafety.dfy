/** The archive side of the rewrite, and what the two sides together guarantee: no line of the notes is lost. */
module ArchiveSafety {
  import opened Sequences
  import opened Text
  import opened Lines
  import opened ArchiveParser
  import opened ArchiveRewriter

  // ---- Appending to the archive ----

  function NumberedIn(archived: seq<nat>): Item -> bool {
    (item: Item) => item.number in archived
  }

  function Archived(items: seq<Item>, archived: seq<nat>): seq<Item> {
    StableSort(Filter(items, NumberedIn(archived)), ByNumber)
  }

  /** The items archived stand in rising order of number ... */
  lemma {:induction false} ArchivedRise(items: seq<Item>, archived: seq<nat>)
    ensures RisingNumbers(Archived(items, archived))
  {
    NumbersRise(Filter(items, NumberedIn(archived)));
  }

  /** ... and are all those of an archived number, as often as they occur. */
  lemma {:induction false} ArchivedCount(items: seq<Item>, archived: seq<nat>, x: Item)
    ensures multiset(Archived(items, archived))[x] == if x.number in archived then multiset(items)[x] else 0
  {
    FilterCounts(items, NumberedIn(archived), x);
    SameCount(Filter(items, NumberedIn(archived)), x);
  }

  lemma SameCount(items: seq<Item>, x: Item)
    ensures multiset(StableSort(items, ByNumber))[x] == multiset(items)[x]
  {
  }

  lemma {:induction false} FilterCounts(items: seq<Item>, p: Item -> bool, x: Item)
    ensures multiset(Filter(items, p))[x] == if p(x) then multiset(items)[x] else 0
  {
    if |items| > 0 {
      var n := |items| - 1;
      FilterCounts(items[..n], p, x);
      assert items == items[..n] + [items[n]];
    }
  }

  /** The archive loses its trailing newlines, and only those. */
  lemma {:induction false} NewlinesStripped(archive: string)
    ensures var r := StripNewlines(archive);
            && r <= archive && (forall i :: |r| <= i < |archive| ==> archive[i] == '\n')
            && (|r| > 0 ==> r[|r| - 1] != '\n')
  {
    TrimEndExactly(archive, (c: char) => c == '\n');
    forall i | |StripNewlines(archive)| <= i < |archive| ensures archive[i] == '\n' {
      assert archive[|StripNewlines(archive)|..][i - |StripNewlines(archive)|] == archive[i];
    }
  }

  /** Each entry is set off by a newline on either side. */
  function Entries(targets: seq<Item>): string {
    if |targets| == 0 then "" else Entries(targets[..|targets| - 1]) + "\n" + targets[|targets| - 1].body + "\n"
  }

  function StripNewlines(s: string): string {
    TrimEnd(s, (c: char) => c == '\n')
  }

  function Appended(archive: string, items: seq<Item>, archived: seq<nat>): string {
    if |Archived(items, archived)| == 0 then archive
    else StripNewlines(archive) + "\n" + Entries(Archived(items, archived))
  }

  lemma {:induction false} NoneArchived(items: seq<Item>)
    ensures Archived(items, []) == []
  {
    if |items| > 0 {
      NoneArchived(items[..|items| - 1]);
      var kept := Filter(items[..|items| - 1], NumberedIn([]));
      assert |StableSort(kept, ByNumber)| == |kept|;
    }
  }

  lemma {:induction false} JoinSnoc(lines: seq<string>, line: string)
    requires |lines| > 0
    ensures Join(lines + [line]) == Join(lines) + "\n" + line
  {
    assert (lines + [line])[..|lines|] == lines;
  }

  /** The parts collected for the appendix, joined by newlines, are the entries one after the other. */
  method AppendToArchive(archive: string, items: seq<Item>, archived: seq<nat>) returns (r: string)
    ensures r == Appended(archive, items, archived)
    ensures RisingNumbers(Archived(items, archived))
  {
    ArchivedRise(items, archived);
    if |archived| == 0 {
      NoneArchived(items);
      return archive;
    }
    var targets := Archived(items, archived);
    if |targets| == 0 {
      return archive;
    }
    var parts := [""];
    for k := 0 to |targets|
      invariant |parts| > 0 && Join(parts) == Entries(targets[..k])
    {
      TakeNext(targets, k);
      JoinSnoc(parts, targets[k].body);
      JoinSnoc(parts + [targets[k].body], "");
      var before := Join(parts);
      assert before + "\n" + targets[k].body + "\n" + "" == before + "\n" + targets[k].body + "\n";
      parts := parts + [targets[k].body] + [""];
    }
    assert targets[..|targets|] == targets;
    r := StripNewlines(archive) + "\n" + Join(parts);
  }

  lemma {:induction false} EntriesContain(targets: seq<Item>, k: nat) returns (at: nat)
    requires k < |targets|
    ensures OccursAt(Entries(targets), targets[k].body, at)
  {
    var n := |targets| - 1;
    var front := Entries(targets[..n]);
    if k == n {
      at := |front + "\n"|;
      OccursInside(front + "\n", targets[n].body, "\n");
    } else {
      at := EntriesContain(targets[..n], k);
      var tail := "\n" + targets[n].body + "\n";
      assert Entries(targets) == front + tail;
      assert (front + tail)[at..at + |targets[k].body|] == front[at..at + |targets[k].body|];
    }
  }

  /** Every archived item is in the archive verbatim, after everything that was there, less trailing newlines. */
  lemma {:induction false} AppendedContains(archive: string, items: seq<Item>, archived: seq<nat>, item: Item)
    requires item in items && item.number in archived
    ensures Contains(Appended(archive, items, archived), item.body)
    ensures StripNewlines(archive) <= Appended(archive, items, archived)
  {
    var targets := Archived(items, archived);
    SortKeepsMembers(Filter(items, NumberedIn(archived)), ByNumber);
    assert item in targets;
    var k :| 0 <= k < |targets| && targets[k] == item;
    var at := EntriesContain(targets, k);
    OccursLater(StripNewlines(archive) + "\n", Entries(targets), item.body, at);
  }

  lemma {:induction false} OccursLater(base: string, s: string, pattern: string, at: nat)
    requires OccursAt(s, pattern, at)
    ensures Contains(base + s, pattern)
  {
    assert (base + s)[|base| + at..|base| + at + |pattern|] == s[at..at + |pattern|];
    assert OccursAt(base + s, pattern, |base| + at);
  }

  // ---- Both sides together ----

  lemma {:induction false} ForwardSingleLines(lines: seq<string>, from: nat, ranges: seq<Item>,
                                              digest: string -> string)
    requires Ascend(ranges, from, |lines|) && SingleLines(lines)
    ensures SingleLines(Forward(lines, from, ranges, digest))
    ensures from < |lines| ==> |Forward(lines, from, ranges, digest)| > 0
    decreases |ranges|
  {
    if |ranges| > 0 {
      ForwardSingleLines(lines, ranges[0].endLine, ranges[1..], digest);
    }
  }

  /** The lines of the rewritten notes are exactly those of the forward substitution. */
  lemma {:induction false} RewrittenLines(text: string, header: string -> Option<nat>, archived: seq<nat>,
                                          digest: string -> string)
    ensures Ascend(FrontToBack(ItemsOf(text, header), archived), 0, |Split(text)|)
    ensures Split(Rewritten(text, header, archived, digest))
         == Forward(Split(text), 0, FrontToBack(ItemsOf(text, header), archived), digest)
  {
    var ranges := FrontToBack(ItemsOf(text, header), archived);
    FrontToBackAscends(text, header, archived);
    SplitIsSingleLines(text);
    ForwardSingleLines(Split(text), 0, ranges, digest);
    SplitJoin(Forward(Split(text), 0, ranges, digest));
  }

  lemma {:induction false} FrontToBackMembers(items: seq<Item>, archived: seq<nat>, x: Item)
    ensures x in FrontToBack(items, archived) <==> x in Chosen(items, archived)
    ensures x in Chosen(items, archived) ==> x in items && x.number in archived
  {
    var d := BackToFront(items, archived);
    SortKeepsMembers(Chosen(items, archived), LaterFirst);
    ChosenMembers(items, archived);
    if x in d {
      var i :| 0 <= i < |d| && d[i] == x;
      assert Reverse(d)[|d| - 1 - i] == x;
    }
  }

  /** Each line of an item, less trailing white space, is in the item's body. */
  lemma {:induction false} BodyHoldsLine(lines: seq<string>, item: Item, p: nat)
    requires Faithful(lines, item) && item.startLine - 1 <= p < item.endLine
    ensures Contains(item.body, StripEnd(lines[p]))
  {
    var range := lines[item.startLine - 1..item.endLine];
    JoinContainsLine(range, p - (item.startLine - 1));
    TrimEndContained(Join(range), lines[p], PyBlank);
  }

  /** Nothing is lost, whatever the items' numbers: each line of the notes either stands in the new notes, or lies in a
      replaced item whose body is in the new archive and holds the line, less trailing white space. A blank line at
      the end of a replaced item stands in neither text. */
  lemma {:induction false} NoLineLost(text: string, archive: string, header: string -> Option<nat>, archived: seq<nat>,
                                      digest: string -> string, p: nat)
    requires p < |Split(text)|
    ensures var items := ItemsOf(text, header);
            || Stands(Split(Rewritten(text, header, archived, digest)), NewPlace(FrontToBack(items, archived), 0, p),
                      Split(text)[p])
            || exists item :: item in items && item.startLine - 1 <= p < item.endLine && Faithful(Split(text), item)
                              && Contains(Appended(archive, items, archived), item.body)
                              && Contains(item.body, StripEnd(Split(text)[p]))
  {
    var items := ItemsOf(text, header);
    var ranges := FrontToBack(items, archived);
    RewrittenLines(text, header, archived, digest);
    if Inside(ranges, p) {
      var k :| 0 <= k < |ranges| && ranges[k].startLine - 1 <= p < ranges[k].endLine;
      assert ranges[k] in ranges;
      FrontToBackMembers(items, archived, ranges[k]);
      ParsedItems(text, header);
      AppendedContains(archive, items, archived, ranges[k]);
      BodyHoldsLine(Split(text), ranges[k], p);
    } else {
      OutsideKept(Split(text), 0, ranges, digest, p);
    }
  }

  /** The items archived are exactly the items replaced when, and only when, no two archived items share a number. */
  lemma {:induction false} ArchivedIsReplacedIffDistinct(text: string, header: string -> Option<nat>,
                                                         archived: seq<nat>)
    ensures var items := ItemsOf(text, header);
            (forall item :: item in items && item.number in archived ==> item in Chosen(items, archived))
            <==> (forall i, j :: 0 <= i < j < |items| && items[i].number in archived ==>
                    items[i].number != items[j].number)
  {
    var items := ItemsOf(text, header);
    ParsedItems(text, header);
    ChosenMembers(items, archived);
    if forall i, j :: 0 <= i < j < |items| && items[i].number in archived ==> items[i].number != items[j].number {
      forall item | item in items && item.number in archived ensures item in Chosen(items, archived) {
        var i :| 0 <= i < |items| && items[i] == item;
        assert LastOfNumber(items, i);
      }
    } else {
      var i, j :| 0 <= i < j < |items| && items[i].number in archived && items[i].number == items[j].number;
      RepeatedNotReplaced(Split(text), items, archived, i, j);
      assert items[i] in items;
    }
  }

  lemma {:induction false} RepeatedNotReplaced(lines: seq<string>, items: seq<Item>, archived: seq<nat>, i: nat, j: nat)
    requires InOrder(items) && forall item :: item in items ==> Faithful(lines, item)
    requires i < j < |items| && items[i].number == items[j].number
    ensures items[i] !in Chosen(items, archived)
  {
    ChosenMembers(items, archived);
    forall k | 0 <= k < |items| && items[k] == items[i] ensures !LastOfNumber(items, k) {
      SamePlace(items, i, k, lines);
    }
  }

  lemma SamePlace(items: seq<Item>, i: nat, k: nat, lines: seq<string>)
    requires InOrder(items) && i < |items| && k < |items| && items[i] == items[k]
    requires forall item :: item in items ==> Faithful(lines, item)
    ensures i == k
  {
    assert Faithful(lines, items[i]);
  }

  // ---- The most recent items ----

  /** The last item that carries a number. */
  function LastWith(items: seq<Item>, number: nat): Option<Item> {
    if |items| == 0 then None
    else if items[|items| - 1].number == number then Some(items[|items| - 1])
    else LastWith(items[..|items| - 1], number)
  }

  lemma {:induction false} LastWithFound(items: seq<Item>, x: Item)
    requires x in items
    ensures var last := LastWith(items, x.number);
            last.Some? && last.value in items && last.value.number == x.number
  {
    var n := |items| - 1;
    if items[n].number != x.number {
      LastWithFound(items[..n], x);
    }
  }

  lemma LastWithNext(items: seq<Item>, x: Item, number: nat)
    ensures LastWith(items + [x], number) == if x.number == number then Some(x) else LastWith(items, number)
  {
    assert (items + [x])[..|items|] == items;
  }

  lemma InsertCases(sorted: seq<Item>, x: Item)
    requires |sorted| > 0
    ensures var n := |sorted| - 1;
            InsertAfterEquals(sorted, x, ByNumber)
            == if ByNumber(sorted[n], x) then sorted + [x]
               else InsertAfterEquals(sorted[..n], x, ByNumber) + [sorted[n]]
  {
  }

  lemma {:induction false} InsertKeepsLast(sorted: seq<Item>, x: Item, number: nat)
    ensures LastWith(InsertAfterEquals(sorted, x, ByNumber), number)
         == if x.number == number then Some(x) else LastWith(sorted, number)
  {
    if |sorted| > 0 {
      var n := |sorted| - 1;
      InsertCases(sorted, x);
      if ByNumber(sorted[n], x) {
        LastWithNext(sorted, x, number);
      } else {
        InsertKeepsLast(sorted[..n], x, number);
        LastWithNext(InsertAfterEquals(sorted[..n], x, ByNumber), sorted[n], number);
      }
    }
  }

  /** A stable sort leaves the last item of every number the last of it. */
  lemma {:induction false} SortKeepsLast(items: seq<Item>, number: nat)
    ensures LastWith(StableSort(items, ByNumber), number) == LastWith(items, number)
  {
    if |items| > 0 {
      var n := |items| - 1;
      SortKeepsLast(items[..n], number);
      InsertKeepsLast(StableSort(items[..n], ByNumber), items[n], number);
    }
  }

  lemma {:induction false} LastWithConcat(a: seq<Item>, b: seq<Item>, number: nat)
    ensures LastWith(a + b, number) == if LastWith(b, number).Some? then LastWith(b, number) else LastWith(a, number)
  {
    if |b| == 0 {
      assert a + b == a;
    } else {
      assert (a + b)[..|a + b| - 1] == a + b[..|b| - 1];
      LastWithConcat(a, b[..|b| - 1], number);
    }
  }

  /** The items replaced are the last ones of the archived numbers. */
  lemma {:induction false} ChosenIsLast(items: seq<Item>, archived: seq<nat>, x: Item)
    ensures x in Chosen(items, archived) <==> x.number in archived && LastWith(items, x.number) == Some(x)
  {
    if |items| > 0 {
      var n := |items| - 1;
      ChosenIsLast(items[..n], archived, x);
      ChosenMembers(items[..n], archived);
      PutMembers(Chosen(items[..n], archived), items[n]);
    }
  }

  lemma {:induction false} CandidateNumbers(items: seq<Item>, keepRecent: int, threshold: nat, number: nat)
    ensures number in Candidates(items, keepRecent, threshold)
       <==> exists a :: a in Older(items, keepRecent) && a.size > threshold && a.number == number
  {
    var verbose := Filter(Older(items, keepRecent), (item: Item) => item.size > threshold);
    if number in Numbers(verbose) {
      var i :| 0 <= i < |verbose| && Numbers(verbose)[i] == number;
      assert verbose[i] in verbose;
    }
    if a :| a in Older(items, keepRecent) && a.size > threshold && a.number == number {
      assert a in verbose;
      var i :| 0 <= i < |verbose| && verbose[i] == a;
      assert Numbers(verbose)[i] == number;
    }
  }

  /** An old verbose item shares its number with one of the most recent. */
  ghost predicate Clash(items: seq<Item>, keepRecent: int, threshold: nat, a: Item, r: Item) {
    a in Older(items, keepRecent) && a.size > threshold && r in Recent(items, keepRecent) && a.number == r.number
  }

  ghost predicate HitsRecent(items: seq<Item>, keepRecent: int, threshold: nat, r: Item) {
    r in Recent(items, keepRecent) && r in Chosen(items, Candidates(items, keepRecent, threshold))
  }

  lemma {:induction false} HitClashes(items: seq<Item>, keepRecent: int, threshold: nat, r: Item) returns (a: Item)
    requires HitsRecent(items, keepRecent, threshold, r)
    ensures Clash(items, keepRecent, threshold, a, r)
  {
    ChosenIsLast(items, Candidates(items, keepRecent, threshold), r);
    CandidateNumbers(items, keepRecent, threshold, r.number);
    a :| a in Older(items, keepRecent) && a.size > threshold && a.number == r.number;
  }

  lemma {:induction false} ClashHits(items: seq<Item>, keepRecent: int, threshold: nat, a: Item, r: Item)
    returns (hit: Item)
    requires Clash(items, keepRecent, threshold, a, r)
    ensures HitsRecent(items, keepRecent, threshold, hit) && hit.number == a.number
  {
    var recent := Recent(items, keepRecent);
    OlderThenRecent(items, keepRecent);
    SortKeepsLast(items, a.number);
    LastWithConcat(Older(items, keepRecent), recent, a.number);
    LastWithFound(recent, r);
    hit := LastWith(recent, a.number).value;
    CandidateNumbers(items, keepRecent, threshold, a.number);
    ChosenIsLast(items, Candidates(items, keepRecent, threshold), hit);
  }

  /** The most recent items keep their detail exactly when none shares its number with an older verbose item. */
  lemma {:induction false} RecentKeptExactly(items: seq<Item>, keepRecent: int, threshold: nat)
    ensures (exists r :: HitsRecent(items, keepRecent, threshold, r))
       <==> (exists a, r :: Clash(items, keepRecent, threshold, a, r))
  {
    if r :| HitsRecent(items, keepRecent, threshold, r) {
      var a := HitClashes(items, keepRecent, threshold, r);
    }
    if a, r :| Clash(items, keepRecent, threshold, a, r) {
      var hit := ClashHits(items, keepRecent, threshold, a, r);
    }
  }

  lemma {:induction false} SortKeepsNumbersDistinct(items: seq<Item>)
    requires DistinctNumbers(items)
    ensures DistinctNumbers(StableSort(items, ByNumber))
  {
    var sorted := StableSort(items, ByNumber);
    assert NoRepeats(items);
    PermutationDistinct(items, sorted);
    SortKeepsMembers(items, ByNumber);
    forall i, j | 0 <= i < j < |sorted| ensures sorted[i].number != sorted[j].number {
      assert sorted[i] in sorted && sorted[j] in sorted;
      var a :| 0 <= a < |items| && items[a] == sorted[i];
      var b :| 0 <= b < |items| && items[b] == sorted[j];
      assert a != b;
    }
  }

  lemma {:induction false} OlderNumbersDiffer(items: seq<Item>, keepRecent: int, a: Item, r: Item)
    requires DistinctNumbers(items) && a in Older(items, keepRecent) && r in Recent(items, keepRecent)
    ensures a.number != r.number
  {
    var older, recent := Older(items, keepRecent), Recent(items, keepRecent);
    OlderThenRecent(items, keepRecent);
    SortKeepsNumbersDistinct(items);
    var i :| 0 <= i < |older| && older[i] == a;
    var j :| 0 <= j < |recent| && recent[j] == r;
    assert (older + recent)[i] == a && (older + recent)[|older| + j] == r;
  }

  /** In particular none of the most recent items is ever replaced when all numbers are distinct. */
  lemma {:induction false} RecentItemsKept(items: seq<Item>, keepRecent: int, threshold: nat, r: Item)
    requires DistinctNumbers(items)
    ensures !HitsRecent(items, keepRecent, threshold, r)
  {
    if HitsRecent(items, keepRecent, threshold, r) {
      var a := HitClashes(items, keepRecent, threshold, r);
      OlderNumbersDiffer(items, keepRecent, a, r);
    }
  }

  // ---- A text on which the promise breaks ----

  function OldLine(threshold: nat): string {
    "- **07**: " + Filler(threshold + 1)
  }

  const NEW_LINE := "- **07**: short"

  /** One long item, then as many short ones as count as recent, all under one number. */
  function OneNumberNotes(keepRecent: nat, threshold: nat): seq<string> {
    [OldLine(threshold)] + seq(keepRecent, i => NEW_LINE)
  }

  lemma {:induction false} EveryLineOpens(lines: seq<string>, n: nat, header: string -> Option<nat>)
    requires n <= |lines| && forall i :: 0 <= i < |lines| ==> OpensItem(lines[i], header)
    ensures |ItemsUpTo(lines, n, header)| == n
    ensures forall i :: 0 <= i < n ==> ItemsUpTo(lines, n, header)[i] == ItemAt(lines, i, header)
  {
    if n > 0 {
      EveryLineOpens(lines, n - 1, header);
    }
  }

  lemma {:induction false} OneNumberSorted(items: seq<Item>)
    requires forall i, j :: 0 <= i < |items| && 0 <= j < |items| ==> items[i].number == items[j].number
    ensures StableSort(items, ByNumber) == items
  {
    if |items| > 0 {
      var n := |items| - 1;
      OneNumberSorted(items[..n]);
      TakeNext(items, n);
      if n > 0 {
        InsertCases(items[..n], items[n]);
      }
    }
  }

  lemma {:induction false} OldLineSize(threshold: nat)
    ensures StripEnd(OldLine(threshold)) == OldLine(threshold) && ByteLen(OldLine(threshold)) > threshold
    ensures SingleLine(OldLine(threshold))
  {
    var line := OldLine(threshold);
    assert line[|line| - 1] == 'x';
    ByteLenBounds(line);
  }

  lemma {:induction false} OneNumberItems(keepRecent: nat, threshold: nat, header: string -> Option<nat>)
    requires header(OldLine(threshold)) == Some(7) && header(NEW_LINE) == Some(7)
    ensures var items := ItemsOf(Join(OneNumberNotes(keepRecent, threshold)), header);
            && |items| == keepRecent + 1 && items[0].body == OldLine(threshold) && items[0].size > threshold
            && forall i :: 0 <= i <= keepRecent ==> items[i].number == 7
  {
    var lines := OneNumberNotes(keepRecent, threshold);
    OldLineSize(threshold);
    SplitJoin(lines);
    EveryLineOpens(lines, |lines|, header);
    assert lines[0..1] == [OldLine(threshold)];
    assert ItemAt(lines, 0, header) == MakeItem(7, lines[0..NextStop(lines, 1, header)], 0, NextStop(lines, 1, header));
  }

  lemma {:induction false} OneNumberParts(items: seq<Item>, keepRecent: nat)
    requires |items| == keepRecent + 1 && keepRecent > 0
    requires forall i :: 0 <= i < |items| ==> items[i].number == 7
    ensures Older(items, keepRecent) == [items[0]] && items[keepRecent] in Recent(items, keepRecent)
  {
    OneNumberSorted(items);
    assert items[1..][keepRecent - 1] == items[keepRecent];
  }

  /** With a repeated number the promise breaks, whatever the keep and size settings: the old verbose item stays in the
      notes and a recent one is replaced. */
  lemma {:induction false} DuplicateNumberHitsRecent(keepRecent: nat, threshold: nat, header: string -> Option<nat>)
    requires keepRecent > 0 && header(OldLine(threshold)) == Some(7) && header(NEW_LINE) == Some(7)
    ensures var items := ItemsOf(Join(OneNumberNotes(keepRecent, threshold)), header);
            && |items| == keepRecent + 1 && items[0].body == OldLine(threshold) && items[0].size > threshold
            && Older(items, keepRecent) == [items[0]]
            && items[0] !in Chosen(items, Candidates(items, keepRecent, threshold))
            && exists r :: HitsRecent(items, keepRecent, threshold, r)
  {
    var text := Join(OneNumberNotes(keepRecent, threshold));
    var items := ItemsOf(text, header);
    OneNumberItems(keepRecent, threshold, header);
    OneNumberParts(items, keepRecent);
    ParsedItems(text, header);
    RepeatedNotReplaced(Split(text), items, Candidates(items, keepRecent, threshold), 0, keepRecent);
    var hit := ClashHits(items, keepRecent, threshold, items[0], items[keepRecent]);
  }
}
