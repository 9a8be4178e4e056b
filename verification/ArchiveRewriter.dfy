/** Archiving old, verbose items: their line ranges are spliced out, back to front, in favour of one-line
    summaries, and their bodies are appended to the archive. */
module ArchiveRewriter {
  import opened Sequences
  import opened Lines
  import opened ArchiveParser

  // ---- Choosing what to archive ----

  predicate ByNumber(x: Item, y: Item) {
    x.number <= y.number
  }

  function Older(items: seq<Item>, keepRecent: int): seq<Item> {
    var sorted := StableSort(items, ByNumber);
    if |sorted| <= keepRecent then []
    else if keepRecent > 0 then sorted[..|sorted| - keepRecent]
    else sorted
  }

  function Recent(items: seq<Item>, keepRecent: int): seq<Item> {
    var sorted := StableSort(items, ByNumber);
    if |sorted| <= keepRecent then sorted
    else if keepRecent > 0 then sorted[|sorted| - keepRecent..]
    else []
  }

  function Numbers(items: seq<Item>): (r: seq<nat>)
    ensures |r| == |items|
  {
    seq(|items|, i requires 0 <= i < |items| => items[i].number)
  }

  /** The numbers of the verbose items that are not among the most recent. */
  function Candidates(items: seq<Item>, keepRecent: int, threshold: nat): seq<nat> {
    Numbers(Filter(Older(items, keepRecent), (item: Item) => item.size > threshold))
  }

  ghost predicate RisingNumbers(items: seq<Item>) {
    forall i, j :: 0 <= i < j < |items| ==> items[i].number <= items[j].number
  }

  lemma {:induction false} NumbersRise(items: seq<Item>)
    ensures RisingNumbers(StableSort(items, ByNumber))
  {
    StableSortSorts(items, ByNumber);
    assert Sorted(StableSort(items, ByNumber), ByNumber);
  }

  lemma SplitParts<T>(s: seq<T>, n: nat)
    requires n <= |s|
    ensures s[..n] + s[n..] == s && [] + s == s && s + [] == s
  {
  }

  /** The number-sorted items are the older ones and then the recent ones. */
  lemma {:induction false} OlderThenRecent(items: seq<Item>, keepRecent: int)
    ensures StableSort(items, ByNumber) == Older(items, keepRecent) + Recent(items, keepRecent)
  {
    var sorted := StableSort(items, ByNumber);
    SplitParts(sorted, if 0 < keepRecent <= |sorted| then |sorted| - keepRecent else 0);
  }

  lemma PartsRise(a: seq<Item>, b: seq<Item>, x: Item, y: Item)
    requires RisingNumbers(a + b)
    requires x in a && y in b
    ensures x.number <= y.number
  {
    var i :| 0 <= i < |a| && a[i] == x;
    var j :| 0 <= j < |b| && b[j] == y;
    assert (a + b)[i] == x && (a + b)[|a| + j] == y;
  }

  /** The recent items are those of the highest numbers, as many as asked for, and the older ones all the others. */
  lemma {:induction false} RecentAreHighest(items: seq<Item>, keepRecent: int)
    ensures forall a, r :: a in Older(items, keepRecent) && r in Recent(items, keepRecent) ==> a.number <= r.number
    ensures keepRecent >= 0 ==> |Recent(items, keepRecent)| == if |items| <= keepRecent then |items| else keepRecent
    ensures keepRecent < 0 ==> Recent(items, keepRecent) == []
    ensures multiset(Older(items, keepRecent)) + multiset(Recent(items, keepRecent)) == multiset(items)
  {
    var older, recent := Older(items, keepRecent), Recent(items, keepRecent);
    NumbersRise(items);
    OlderThenRecent(items, keepRecent);
    forall a, r | a in older && r in recent ensures a.number <= r.number {
      PartsRise(older, recent, a, r);
    }
    assert multiset(older + recent) == multiset(older) + multiset(recent);
  }

  // ---- The dictionary of items to replace: one per number, the last one seen ----

  function Put(dict: seq<Item>, item: Item): seq<Item> {
    if |dict| == 0 then [item]
    else if dict[0].number == item.number then [item] + dict[1..]
    else [dict[0]] + Put(dict[1..], item)
  }

  function Chosen(items: seq<Item>, archived: seq<nat>): seq<Item> {
    if |items| == 0 then []
    else
      var before, item := Chosen(items[..|items| - 1], archived), items[|items| - 1];
      if item.number in archived then Put(before, item) else before
  }

  ghost predicate DistinctNumbers(items: seq<Item>) {
    forall i, j :: 0 <= i < j < |items| ==> items[i].number != items[j].number
  }

  lemma {:induction false} PutMembers(dict: seq<Item>, item: Item)
    requires DistinctNumbers(dict)
    ensures DistinctNumbers(Put(dict, item))
    ensures forall x :: x in Put(dict, item) <==> x == item || (x in dict && x.number != item.number)
  {
    if |dict| > 0 {
      var rest := dict[1..];
      assert dict == [dict[0]] + rest;
      if dict[0].number != item.number {
        PutMembers(rest, item);
        forall i | 0 <= i < |Put(rest, item)| ensures Put(rest, item)[i].number != dict[0].number {
          assert Put(rest, item)[i] in Put(rest, item);
        }
      }
    }
  }

  /** What is replaced: the last item of each archived number. */
  ghost predicate LastOfNumber(items: seq<Item>, i: nat)
    requires i < |items|
  {
    forall j :: i < j < |items| ==> items[j].number != items[i].number
  }

  ghost predicate LastInstance(items: seq<Item>, archived: seq<nat>, x: Item) {
    exists i :: 0 <= i < |items| && items[i] == x && x.number in archived && LastOfNumber(items, i)
  }

  lemma LastInstanceNext(items: seq<Item>, archived: seq<nat>, x: Item)
    requires |items| > 0
    ensures var n := |items| - 1;
            LastInstance(items, archived, x)
            <==> (x == items[n] && x.number in archived)
                 || (LastInstance(items[..n], archived, x) && x.number != items[n].number)
  {
    var n := |items| - 1;
    var front := items[..n];
    if x == items[n] && x.number in archived {
      assert LastOfNumber(items, n);
    } else if LastInstance(front, archived, x) && x.number != items[n].number {
      var i :| 0 <= i < n && front[i] == x && x.number in archived && LastOfNumber(front, i);
      assert items[i] == x && LastOfNumber(items, i);
    }
    forall i | 0 <= i < n && items[i] == x && x.number in archived && LastOfNumber(items, i)
      ensures LastInstance(front, archived, x) && x.number != items[n].number
    {
      assert front[i] == x && LastOfNumber(front, i);
    }
  }

  lemma {:induction false} ChosenMembers(items: seq<Item>, archived: seq<nat>)
    ensures DistinctNumbers(Chosen(items, archived))
    ensures forall x :: x in Chosen(items, archived) <==> LastInstance(items, archived, x)
  {
    if |items| > 0 {
      var n := |items| - 1;
      ChosenMembers(items[..n], archived);
      PutMembers(Chosen(items[..n], archived), items[n]);
      forall x ensures x in Chosen(items, archived) <==> LastInstance(items, archived, x) {
        LastInstanceNext(items, archived, x);
        assert LastInstance(items[..n], archived, x) ==> x.number in archived;
      }
    }
  }

  // ---- Forward substitution: what the rewrite amounts to ----

  /** Ranges in increasing order, disjoint, starting at line `from` (0-based) or later. */
  ghost predicate Ascend(ranges: seq<Item>, from: nat, n: nat) {
    if |ranges| == 0 then from <= n
    else
      && from + 1 <= ranges[0].startLine <= ranges[0].endLine <= n
      && Ascend(ranges[1..], ranges[0].endLine, n)
  }

  /** `digest` stands for the title and test-count extraction; the source flattens its result to one line. */
  function Summary(item: Item, digest: string -> string): (r: string)
    ensures SingleLine(r)
  {
    var text := digest(item.body);
    seq(|text|, i requires 0 <= i < |text| => if text[i] == '\n' then ' ' else text[i])
  }

  /** One pass over the lines, copying what lies outside the ranges and summarising each range. */
  function Forward(lines: seq<string>, from: nat, ranges: seq<Item>, digest: string -> string): seq<string>
    requires Ascend(ranges, from, |lines|)
    decreases |ranges|
  {
    if |ranges| == 0 then lines[from..]
    else
      lines[from..ranges[0].startLine - 1] + [Summary(ranges[0], digest)]
        + Forward(lines, ranges[0].endLine, ranges[1..], digest)
  }

  lemma {:induction false} AscendLater(ranges: seq<Item>, from: nat, later: nat, n: nat)
    requires Ascend(ranges, from, n) && from <= later <= n
    requires |ranges| > 0 ==> later < ranges[0].startLine
    ensures Ascend(ranges, later, n)
  {
  }

  lemma Regroup(a: seq<string>, b: seq<string>, c: seq<string>, d: seq<string>)
    ensures (a + b) + c + d == a + (b + c + d)
  {
  }

  lemma {:induction false} ForwardParts(lines: seq<string>, from: nat, ranges: seq<Item>, digest: string -> string)
    requires Ascend(ranges, from, |lines|) && |ranges| > 0
    ensures Forward(lines, from, ranges, digest)
         == lines[from..ranges[0].startLine - 1] + [Summary(ranges[0], digest)]
            + Forward(lines, ranges[0].endLine, ranges[1..], digest)
  {
  }

  lemma SliceSplit(lines: seq<string>, from: nat, later: nat, to: nat)
    requires from <= later <= to <= |lines|
    ensures lines[from..to] == lines[from..later] + lines[later..to]
  {
  }

  lemma {:induction false} ForwardLater(lines: seq<string>, from: nat, later: nat, ranges: seq<Item>,
                                        digest: string -> string)
    requires Ascend(ranges, from, |lines|) && from <= later <= |lines|
    requires |ranges| > 0 ==> later < ranges[0].startLine
    ensures Ascend(ranges, later, |lines|)
    ensures Forward(lines, from, ranges, digest) == lines[from..later] + Forward(lines, later, ranges, digest)
  {
    AscendLater(ranges, from, later, |lines|);
    if |ranges| == 0 {
      SliceSplit(lines, from, later, |lines|);
      assert lines[from..] == lines[from..|lines|] && lines[later..] == lines[later..|lines|];
    } else {
      var s := ranges[0].startLine - 1;
      SliceSplit(lines, from, later, s);
      ForwardParts(lines, from, ranges, digest);
      ForwardParts(lines, later, ranges, digest);
      Regroup(lines[from..later], lines[later..s], [Summary(ranges[0], digest)],
              Forward(lines, ranges[0].endLine, ranges[1..], digest));
    }
  }

  /** Splicing a range in front of those already substituted extends the substitution. */
  lemma {:induction false} SpliceExtends(lines: seq<string>, item: Item, ranges: seq<Item>, digest: string -> string)
    requires 1 <= item.startLine <= item.endLine <= |lines| && Ascend(ranges, item.endLine, |lines|)
    ensures Ascend(ranges, 0, |lines|) && Ascend([item] + ranges, 0, |lines|)
    ensures var done := Forward(lines, 0, ranges, digest);
            && item.endLine <= |done|
            && done[..item.startLine - 1] + [Summary(item, digest)] + done[item.endLine..]
               == Forward(lines, 0, [item] + ranges, digest)
  {
    assert ([item] + ranges)[1..] == ranges;
    ForwardLater(lines, 0, item.endLine, ranges, digest);
    var rest := Forward(lines, item.endLine, ranges, digest);
    var done := lines[0..item.endLine] + rest;
    assert done[item.endLine..] == rest;
    assert done[..item.startLine - 1] == lines[0..item.startLine - 1];
  }

  predicate LaterFirst(x: Item, y: Item) {
    x.startLine >= y.startLine
  }

  function Reverse<T>(s: seq<T>): (r: seq<T>)
    ensures |r| == |s|
  {
    seq(|s|, i requires 0 <= i < |s| => s[|s| - 1 - i])
  }

  function BackToFront(items: seq<Item>, archived: seq<nat>): seq<Item> {
    StableSort(Chosen(items, archived), LaterFirst)
  }

  function FrontToBack(items: seq<Item>, archived: seq<nat>): seq<Item> {
    Reverse(BackToFront(items, archived))
  }

  lemma TwoItems(items: seq<Item>, x: Item, y: Item)
    requires InOrder(items) && x in items && y in items && x != y && x.startLine >= y.startLine
    requires forall item :: item in items ==> item.startLine <= item.endLine
    ensures y.endLine < x.startLine
  {
    var a :| 0 <= a < |items| && items[a] == x;
    var b :| 0 <= b < |items| && items[b] == y;
    assert b < a;
  }

  ghost predicate Descend(order: seq<Item>, n: nat) {
    && (forall i :: 0 <= i < |order| ==> 1 <= order[i].startLine <= order[i].endLine <= n)
    && (forall i, j :: 0 <= i < j < |order| ==> order[j].endLine < order[i].startLine)
  }

  lemma {:induction false} SortedChosen(items: seq<Item>, archived: seq<nat>)
    ensures var d := BackToFront(items, archived);
            && (forall i :: 0 <= i < |d| ==> d[i] in items)
            && (forall i, j :: 0 <= i < j < |d| ==> d[i] != d[j] && d[i].startLine >= d[j].startLine)
  {
    var chosen, d := Chosen(items, archived), BackToFront(items, archived);
    ChosenMembers(items, archived);
    SortKeepsMembers(chosen, LaterFirst);
    StableSortSorts(chosen, LaterFirst);
    assert NoRepeats(chosen);
    PermutationDistinct(chosen, d);
    forall i | 0 <= i < |d| ensures d[i] in items {
      assert d[i] in d;
    }
    forall i, j | 0 <= i < j < |d| ensures d[i].startLine >= d[j].startLine {
      assert LaterFirst(d[i], d[j]);
    }
  }

  lemma {:induction false} SpreadItems(items: seq<Item>, d: seq<Item>, n: nat)
    requires InOrder(items) && forall item :: item in items ==> 1 <= item.startLine <= item.endLine <= n
    requires forall i :: 0 <= i < |d| ==> d[i] in items
    requires forall i, j :: 0 <= i < j < |d| ==> d[i] != d[j] && d[i].startLine >= d[j].startLine
    ensures Descend(d, n)
  {
    forall i, j | 0 <= i < j < |d| ensures d[j].endLine < d[i].startLine {
      TwoItems(items, d[i], d[j]);
    }
  }

  /** The ranges to splice are among the parsed ones, so each ends before the one spliced before it. */
  lemma {:induction false} BackToFrontDescends(text: string, header: string -> Option<nat>, archived: seq<nat>)
    ensures Descend(BackToFront(ItemsOf(text, header), archived), |Split(text)|)
  {
    var items := ItemsOf(text, header);
    ParsedItems(text, header);
    SortedChosen(items, archived);
    SpreadItems(items, BackToFront(items, archived), |Split(text)|);
  }

  lemma {:induction false} DescendReversed(order: seq<Item>, n: nat, from: nat)
    requires Descend(order, n) && from <= n && (|order| > 0 ==> from < order[|order| - 1].startLine)
    ensures Ascend(Reverse(order), from, n)
  {
    if |order| > 0 {
      var last := |order| - 1;
      assert Reverse(order)[1..] == Reverse(order[..last]);
      DescendReversed(order[..last], n, order[last].endLine);
    }
  }

  lemma ReverseNext(order: seq<Item>, k: nat)
    requires k < |order|
    ensures Reverse(order[..k + 1]) == [order[k]] + Reverse(order[..k])
  {
  }

  lemma {:induction false} SpliceStep(original: seq<string>, order: seq<Item>, k: nat, digest: string -> string)
    requires Descend(order, |original|) && k < |order|
    ensures Ascend(Reverse(order[..k]), 0, |original|) && Ascend(Reverse(order[..k + 1]), 0, |original|)
    ensures var done, item := Forward(original, 0, Reverse(order[..k]), digest), order[k];
            && item.endLine <= |done|
            && done[..item.startLine - 1] + [Summary(item, digest)] + done[item.endLine..]
               == Forward(original, 0, Reverse(order[..k + 1]), digest)
  {
    DescendReversed(order[..k], |original|, order[k].endLine);
    SpliceExtends(original, order[k], Reverse(order[..k]), digest);
    ReverseNext(order, k);
  }

  /** Splicing summaries in from the last range to the first, so that earlier line numbers stay valid. */
  method SpliceBackToFront(original: seq<string>, order: seq<Item>, digest: string -> string)
    returns (lines: seq<string>)
    requires Descend(order, |original|)
    ensures Ascend(Reverse(order), 0, |original|)
    ensures lines == Forward(original, 0, Reverse(order), digest)
  {
    lines := original;
    for k := 0 to |order|
      invariant Ascend(Reverse(order[..k]), 0, |original|)
      invariant lines == Forward(original, 0, Reverse(order[..k]), digest)
    {
      SpliceStep(original, order, k, digest);
      lines := lines[..order[k].startLine - 1] + [Summary(order[k], digest)] + lines[order[k].endLine..];
    }
    assert order[..|order|] == order;
  }

  lemma {:induction false} FrontToBackAscends(text: string, header: string -> Option<nat>, archived: seq<nat>)
    ensures Ascend(FrontToBack(ItemsOf(text, header), archived), 0, |Split(text)|)
  {
    BackToFrontDescends(text, header, archived);
    DescendReversed(BackToFront(ItemsOf(text, header), archived), |Split(text)|, 0);
  }

  /** The notes with every chosen range summarised, in one forward pass. */
  function Rewritten(text: string, header: string -> Option<nat>, archived: seq<nat>,
                     digest: string -> string): string
  {
    FrontToBackAscends(text, header, archived);
    Join(Forward(Split(text), 0, FrontToBack(ItemsOf(text, header), archived), digest))
  }

  method RewriteNotes(text: string, items: seq<Item>, archived: seq<nat>, digest: string -> string,
                      ghost header: string -> Option<nat>)
    returns (rewritten: string)
    requires items == ItemsOf(text, header)
    ensures rewritten == Rewritten(text, header, archived, digest)
  {
    if |archived| == 0 {
      NothingChosen(items);
      JoinSplit(text);
      return text;
    }
    BackToFrontDescends(text, header, archived);
    var lines := SpliceBackToFront(Split(text), BackToFront(items, archived), digest);
    rewritten := Join(lines);
  }

  lemma {:induction false} NothingChosen(items: seq<Item>)
    ensures Chosen(items, []) == []
  {
    if |items| > 0 {
      NothingChosen(items[..|items| - 1]);
    }
  }

  // ---- Nothing outside the ranges is touched ----

  predicate Inside(ranges: seq<Item>, p: nat) {
    exists k :: 0 <= k < |ranges| && ranges[k].startLine - 1 <= p < ranges[k].endLine
  }

  /** How many lines the ranges that end by line `p` give up. */
  function Removed(ranges: seq<Item>, p: nat): nat {
    if |ranges| == 0 then 0
    else
      (if ranges[0].startLine <= ranges[0].endLine <= p then ranges[0].endLine - ranges[0].startLine else 0)
        + Removed(ranges[1..], p)
  }

  lemma {:induction false} RemovedBefore(ranges: seq<Item>, from: nat, n: nat, p: nat)
    requires Ascend(ranges, from, n) && p <= from
    ensures Removed(ranges, p) == 0
  {
    if |ranges| > 0 {
      RemovedBefore(ranges[1..], ranges[0].endLine, n, p);
    }
  }

  /** Where old line `p` stands once the lines given up before it are gone. */
  function NewPlace(ranges: seq<Item>, from: nat, p: nat): int {
    p - from - Removed(ranges, p)
  }

  ghost predicate Stands(lines: seq<string>, place: int, line: string) {
    0 <= place < |lines| && lines[place] == line
  }

  /** The new text has exactly as many lines fewer as the ranges give up. */
  lemma {:induction false} ForwardLength(lines: seq<string>, from: nat, ranges: seq<Item>, digest: string -> string)
    requires Ascend(ranges, from, |lines|)
    ensures |Forward(lines, from, ranges, digest)| == NewPlace(ranges, from, |lines|)
    decreases |ranges|
  {
    if |ranges| > 0 {
      ForwardLength(lines, ranges[0].endLine, ranges[1..], digest);
      AscendEnds(ranges[1..], ranges[0].endLine, |lines|);
    }
  }

  lemma {:induction false} AscendEnds(ranges: seq<Item>, from: nat, n: nat)
    requires Ascend(ranges, from, n)
    ensures from <= n
  {
    if |ranges| > 0 {
      AscendEnds(ranges[1..], ranges[0].endLine, n);
    }
  }

  /** Every line outside the ranges is still there, moved up by the lines given up before it. */
  lemma {:induction false} OutsideKept(lines: seq<string>, from: nat, ranges: seq<Item>, digest: string -> string,
                                       p: nat)
    requires Ascend(ranges, from, |lines|) && from <= p < |lines| && !Inside(ranges, p)
    ensures Stands(Forward(lines, from, ranges, digest), NewPlace(ranges, from, p), lines[p])
    decreases |ranges|
  {
    if |ranges| > 0 {
      var first, rest := ranges[0], ranges[1..];
      assert !(first.startLine - 1 <= p < first.endLine);
      if p < first.endLine {
        RemovedBefore(rest, first.endLine, |lines|, p);
      } else {
        assert forall k :: 0 <= k < |rest| ==> rest[k] == ranges[k + 1];
        OutsideKept(lines, first.endLine, rest, digest, p);
      }
    }
  }

  lemma {:induction false} RemovedAtMost(ranges: seq<Item>, from: nat, n: nat, p: nat)
    requires Ascend(ranges, from, n) && from <= p < n && !Inside(ranges, p)
    ensures Removed(ranges, p) <= p - from
    decreases |ranges|
  {
    if |ranges| > 0 {
      var first, rest := ranges[0], ranges[1..];
      assert !(first.startLine - 1 <= p < first.endLine);
      if p < first.endLine {
        RemovedBefore(rest, first.endLine, n, p);
      } else {
        OutsideTheRest(ranges, p);
        RemovedAtMost(rest, first.endLine, n, p);
      }
    }
  }

  lemma OutsideTheRest(ranges: seq<Item>, p: nat)
    requires |ranges| > 0 && !Inside(ranges, p)
    ensures !Inside(ranges[1..], p)
  {
    assert forall k :: 0 <= k < |ranges[1..]| ==> ranges[1..][k] == ranges[k + 1];
  }

  /** Kept lines keep their order. */
  lemma {:induction false} OutsideInOrder(ranges: seq<Item>, from: nat, n: nat, p: nat, q: nat)
    requires Ascend(ranges, from, n) && from <= p < q < n && !Inside(ranges, p) && !Inside(ranges, q)
    ensures NewPlace(ranges, from, p) < NewPlace(ranges, from, q)
    decreases |ranges|
  {
    if |ranges| > 0 {
      var first, rest := ranges[0], ranges[1..];
      assert !(first.startLine - 1 <= p < first.endLine) && !(first.startLine - 1 <= q < first.endLine);
      OutsideTheRest(ranges, p);
      OutsideTheRest(ranges, q);
      if p >= first.endLine {
        OutsideInOrder(rest, first.endLine, n, p, q);
      } else {
        RemovedBefore(rest, first.endLine, n, p);
        if q < first.endLine {
          RemovedBefore(rest, first.endLine, n, q);
        } else {
          RemovedAtMost(rest, first.endLine, n, q);
        }
      }
    }
  }

  /** Every range has become its one-line summary, at the place its first line moves to. */
  lemma {:induction false} RangeSummarised(lines: seq<string>, from: nat, ranges: seq<Item>, digest: string -> string,
                                           k: nat)
    requires Ascend(ranges, from, |lines|) && k < |ranges|
    ensures ranges[k].startLine > 0
    ensures Stands(Forward(lines, from, ranges, digest), NewPlace(ranges, from, ranges[k].startLine - 1),
                   Summary(ranges[k], digest))
    decreases |ranges|
  {
    var first, rest := ranges[0], ranges[1..];
    if k == 0 {
      RemovedBefore(rest, first.endLine, |lines|, first.startLine - 1);
    } else {
      RangeSummarised(lines, first.endLine, rest, digest, k - 1);
      AscendAfter(rest, first.endLine, |lines|, k - 1);
    }
  }

  lemma {:induction false} AscendAfter(ranges: seq<Item>, from: nat, n: nat, k: nat)
    requires Ascend(ranges, from, n) && k < |ranges|
    ensures from < ranges[k].startLine <= ranges[k].endLine <= n
  {
    if k > 0 {
      AscendAfter(ranges[1..], ranges[0].endLine, n, k - 1);
    }
  }
}
