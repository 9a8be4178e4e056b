/** The agent's loop detector: exact repeats, near repeats by salient hash, two-step cycles and total frequency. */
module LoopDetection {
  import opened Sequences

  function HashesOf(history: seq<string>, hash: string -> nat): (r: seq<nat>)
    ensures |r| == |history|
  {
    seq(|history|, i requires 0 <= i < |history| => hash(history[i]))
  }

  predicate RepeatedTail<T(==)>(window: seq<T>, n: nat) {
    && |window| >= n
    && forall i :: |window| - n <= i < |window| ==> window[i] == window[|window| - n]
  }

  predicate CycleTail(window: seq<nat>) {
    && |window| >= 4
    && var last4 := window[|window| - 4..];
       last4[0] == last4[2] && last4[1] == last4[3] && last4[0] != last4[1]
  }

  function Occurrences(hashes: seq<nat>, h: nat): nat {
    CountIf(hashes, (x: nat) => x == h)
  }

  /** What a report means, in terms of everything recorded since the last reset. */
  ghost predicate LoopReported(history: seq<string>, hash: string -> nat, maxHistory: nat, repeatThreshold: nat,
                               frequencyThreshold: nat)
    requires |history| > 0
  {
    var hashes := HashesOf(history, hash);
    var window := LastN(hashes, maxHistory);
    || RepeatedTail(window, repeatThreshold)
    || CycleTail(window)
    || Occurrences(hashes, hashes[|hashes| - 1]) >= frequencyThreshold
  }

  /** The same, read off the last actions directly: the last `repeatThreshold` of them share a hash, the last four go
      back and forth between two, or the last one has been seen often enough. */
  lemma ReportedExactly(history: seq<string>, hash: string -> nat, maxHistory: nat, repeatThreshold: nat, ft: nat)
    requires |history| > 0
    ensures var n := |history|;
            var seen := if n <= maxHistory then n else maxHistory;
            LoopReported(history, hash, maxHistory, repeatThreshold, ft)
            <==> || (repeatThreshold <= seen
                     && forall i :: n - repeatThreshold <= i < n ==> hash(history[i]) == hash(history[n - 1]))
                 || (seen >= 4 && hash(history[n - 4]) == hash(history[n - 2])
                     && hash(history[n - 3]) == hash(history[n - 1]) && hash(history[n - 2]) != hash(history[n - 1]))
                 || Occurrences(HashesOf(history, hash), hash(history[n - 1])) >= ft
  {
    RepeatExactly(history, hash, maxHistory, repeatThreshold);
    CycleExactly(history, hash, maxHistory);
  }

  lemma RepeatExactly(history: seq<string>, hash: string -> nat, maxHistory: nat, repeats: nat)
    requires |history| > 0
    ensures var n := |history|;
            RepeatedTail(LastN(HashesOf(history, hash), maxHistory), repeats)
            <==> && repeats <= (if n <= maxHistory then n else maxHistory)
                 && forall i :: n - repeats <= i < n ==> hash(history[i]) == hash(history[n - 1])
  {
    var n, hashes := |history|, HashesOf(history, hash);
    var window := LastN(hashes, maxHistory);
    var w := |window|;
    forall i | 0 <= i < w ensures window[i] == hash(history[n - w + i]) {
    }
    if RepeatedTail(window, repeats) {
      forall i | n - repeats <= i < n ensures hash(history[i]) == hash(history[n - 1]) {
        assert window[i - (n - w)] == window[w - repeats] == window[w - 1];
      }
    }
    if repeats <= w && forall i :: n - repeats <= i < n ==> hash(history[i]) == hash(history[n - 1]) {
      forall i | w - repeats <= i < w ensures window[i] == window[w - repeats] {
        assert hash(history[n - w + i]) == hash(history[n - 1]);
        assert hash(history[n - repeats]) == hash(history[n - 1]);
      }
    }
  }

  lemma CycleExactly(history: seq<string>, hash: string -> nat, maxHistory: nat)
    requires |history| > 0
    ensures var n := |history|;
            CycleTail(LastN(HashesOf(history, hash), maxHistory))
            <==> && n >= 4 && maxHistory >= 4 && hash(history[n - 4]) == hash(history[n - 2])
                 && hash(history[n - 3]) == hash(history[n - 1]) && hash(history[n - 2]) != hash(history[n - 1])
  {
    var n, hashes := |history|, HashesOf(history, hash);
    var window := LastN(hashes, maxHistory);
    if |window| >= 4 {
      var last4 := window[|window| - 4..];
      assert last4[0] == hashes[n - 4] && last4[1] == hashes[n - 3];
      assert last4[2] == hashes[n - 2] && last4[3] == hashes[n - 1];
    }
  }

  lemma {:induction false} HashesAppend(history: seq<string>, action: string, hash: string -> nat)
    ensures HashesOf(history + [action], hash) == HashesOf(history, hash) + [hash(action)]
  {
  }

  lemma HashesWindow(history: seq<string>, hash: string -> nat, n: nat)
    ensures HashesOf(LastN(history, n), hash) == LastN(HashesOf(history, hash), n)
  {
  }

  /** An exact repeat is always a hash repeat, so the exact check never decides anything by itself. */
  lemma ExactRepeatIsHashRepeat(history: seq<string>, hash: string -> nat, maxHistory: nat, n: nat)
    requires RepeatedTail(LastN(history, maxHistory), n)
    ensures RepeatedTail(LastN(HashesOf(history, hash), maxHistory), n)
  {
    HashesWindow(history, hash, maxHistory);
  }

  lemma {:induction false} OccurrencesAppend(hashes: seq<nat>, h: nat, x: nat)
    ensures Occurrences(hashes + [x], h) == Occurrences(hashes, h) + (if x == h then 1 else 0)
  {
    assert (hashes + [x])[..|hashes|] == hashes;
  }

  function Tally(frequency: map<nat, nat>, h: nat): nat {
    if h in frequency then frequency[h] else 0
  }

  ghost predicate Tallies(frequency: map<nat, nat>, hashes: seq<nat>) {
    forall h: nat :: Tally(frequency, h) == Occurrences(hashes, h)
  }

  lemma {:induction false} TallyNext(frequency: map<nat, nat>, hashes: seq<nat>, h: nat)
    requires Tallies(frequency, hashes)
    ensures Tallies(frequency[h := Tally(frequency, h) + 1], hashes + [h])
  {
    forall x: nat ensures Tally(frequency[h := Tally(frequency, h) + 1], x) == Occurrences(hashes + [h], x) {
      OccurrencesAppend(hashes, x, h);
    }
  }

  class LoopDetector {
    var recentActions: seq<string>
    var recentHashes: seq<nat>
    var actionFrequency: map<nat, nat>
    const hash: string -> nat
    const maxHistory: nat
    const repeatThreshold: nat
    const frequencyThreshold: nat
    ghost var history: seq<string>

    ghost predicate Valid()
      reads this
    {
      && recentActions == LastN(history, maxHistory)
      && recentHashes == LastN(HashesOf(history, hash), maxHistory)
      && Tallies(actionFrequency, HashesOf(history, hash))
    }

    constructor (hash: string -> nat, maxHistory: nat, repeatThreshold: nat, frequencyThreshold: nat)
      ensures Valid() && history == []
      ensures this.hash == hash && this.maxHistory == maxHistory
      ensures this.repeatThreshold == repeatThreshold && this.frequencyThreshold == frequencyThreshold
    {
      recentActions, recentHashes, actionFrequency, history := [], [], map[], [];
      this.hash, this.maxHistory := hash, maxHistory;
      this.repeatThreshold, this.frequencyThreshold := repeatThreshold, frequencyThreshold;
    }

    method RecordAndCheck(action: string) returns (loop: bool)
      requires Valid()
      modifies this
      ensures Valid() && history == old(history) + [action]
      ensures loop <==> LoopReported(history, hash, maxHistory, repeatThreshold, frequencyThreshold)
    {
      var count := Remember(action);
      if RepeatedTail(recentActions, repeatThreshold) {
        ExactRepeatIsHashRepeat(history, hash, maxHistory, repeatThreshold);
        return true;
      }
      if RepeatedTail(recentHashes, repeatThreshold) {
        return true;
      }
      if CycleTail(recentHashes) {
        return true;
      }
      loop := count >= frequencyThreshold;
    }

    /** Pushes the action and its hash into the windows and counts the hash. */
    method Remember(action: string) returns (count: nat)
      requires Valid()
      modifies this
      ensures Valid() && history == old(history) + [action]
      ensures count == Occurrences(HashesOf(history, hash), hash(action))
    {
      PushKeepsLastN(history, maxHistory, action);
      recentActions := recentActions + [action];
      if |recentActions| > maxHistory {
        recentActions := recentActions[1..];
      }
      var h := hash(action);
      PushKeepsLastN(HashesOf(history, hash), maxHistory, h);
      recentHashes := recentHashes + [h];
      if |recentHashes| > maxHistory {
        recentHashes := recentHashes[1..];
      }
      count := Tally(actionFrequency, h) + 1;
      TallyNext(actionFrequency, HashesOf(history, hash), h);
      actionFrequency := actionFrequency[h := count];
      HashesAppend(history, action, hash);
      history := history + [action];
      assert Tally(actionFrequency, h) == count;
    }

    method Reset()
      modifies this
      ensures Valid() && history == []
    {
      recentActions, recentHashes, actionFrequency, history := [], [], map[], [];
    }
  }

  // ---- How long a run can stay unreported ----

  ghost predicate Quiet(history: seq<string>, hash: string -> nat, maxHistory: nat, repeatThreshold: nat,
                        frequencyThreshold: nat) {
    forall n :: 1 <= n <= |history| ==>
      !LoopReported(history[..n], hash, maxHistory, repeatThreshold, frequencyThreshold)
  }

  /** The prefix ending at the last place where a hash occurs holds all of its occurrences. */
  lemma {:induction false} LastOccurrence(hashes: seq<nat>, h: nat) returns (n: nat)
    requires Occurrences(hashes, h) > 0
    ensures 1 <= n <= |hashes| && hashes[n - 1] == h
    ensures Occurrences(hashes[..n], h) == Occurrences(hashes, h)
  {
    var last := |hashes| - 1;
    if hashes[last] == h {
      n := |hashes|;
      assert hashes[..n] == hashes;
    } else {
      n := LastOccurrence(hashes[..last], h);
      assert hashes[..last][..n] == hashes[..n];
    }
  }

  lemma {:induction false} QuietOccurrences(history: seq<string>, hash: string -> nat, mh: nat, rt: nat, ft: nat,
                                            h: nat)
    requires ft >= 1 && Quiet(history, hash, mh, rt, ft)
    ensures Occurrences(HashesOf(history, hash), h) <= ft - 1
  {
    var hashes := HashesOf(history, hash);
    if Occurrences(hashes, h) > 0 {
      var n := LastOccurrence(hashes, h);
      assert HashesOf(history[..n], hash) == hashes[..n];
      assert !LoopReported(history[..n], hash, mh, rt, ft);
    }
  }

  lemma {:induction false} WithoutHash(hashes: seq<nat>, h: nat, y: nat)
    ensures var rest := Filter(hashes, (x: nat) => x != h);
            && |rest| == |hashes| - Occurrences(hashes, h)
            && (y != h ==> Occurrences(rest, y) == Occurrences(hashes, y))
  {
    if |hashes| > 0 {
      var front, x := hashes[..|hashes| - 1], hashes[|hashes| - 1];
      WithoutHash(front, h, y);
      var kept := Filter(front, (x: nat) => x != h);
      OccurrencesAppend(kept, y, x);
      assert kept + [] == kept;
    }
  }

  /** Spread over K values, each at most b times, a sequence has at most K·b entries. */
  lemma {:induction false} CountsBoundLength(hashes: seq<nat>, values: set<nat>, b: nat)
    requires forall x :: x in hashes ==> x in values
    requires forall h: nat :: Occurrences(hashes, h) <= b
    ensures |hashes| <= |values| * b
    decreases |values|
  {
    if |hashes| > 0 {
      var h := hashes[0];
      assert h in values;
      var rest := Filter(hashes, (x: nat) => x != h);
      WithoutHash(hashes, h, h);
      NoOccurrences(rest, h);
      forall y: nat ensures Occurrences(rest, y) <= b {
        WithoutHash(hashes, h, y);
      }
      CountsBoundLength(rest, values - {h}, b);
      OneMore(|values| - 1, b);
      assert |values - {h}| == |values| - 1;
    }
  }

  lemma OneMore(k: nat, b: nat)
    ensures (k + 1) * b == k * b + b
  {
  }

  lemma {:induction false} NoOccurrences(hashes: seq<nat>, h: nat)
    requires h !in hashes
    ensures Occurrences(hashes, h) == 0
  {
    if |hashes| > 0 {
      NoOccurrences(hashes[..|hashes| - 1], h);
    }
  }

  function DistinctHashes(history: seq<string>, hash: string -> nat): set<nat> {
    set h | h in HashesOf(history, hash)
  }

  /** A run that never reports a loop and uses K distinct salient hashes has at most K·(threshold - 1) actions. */
  lemma {:induction false} QuietRunsAreShort(history: seq<string>, hash: string -> nat, mh: nat, rt: nat, ft: nat)
    requires ft >= 1 && Quiet(history, hash, mh, rt, ft)
    ensures |history| <= |DistinctHashes(history, hash)| * (ft - 1)
  {
    forall h: nat ensures Occurrences(HashesOf(history, hash), h) <= ft - 1 {
      QuietOccurrences(history, hash, mh, rt, ft, h);
    }
    CountsBoundLength(HashesOf(history, hash), DistinctHashes(history, hash), ft - 1);
  }

  // ---- The bound is attained: going round three or more actions stays quiet that long ----

  /** Where a walk round `k` places stands after `n` steps, and how many rounds it has completed. */
  function Place(n: nat, k: nat): (r: nat)
    requires k > 0
    ensures r < k
  {
    if n == 0 || Place(n - 1, k) == k - 1 then 0 else Place(n - 1, k) + 1
  }

  function Rounds(n: nat, k: nat): nat
    requires k > 0
  {
    if n == 0 then 0 else Rounds(n - 1, k) + (if Place(n, k) == 0 then 1 else 0)
  }

  lemma {:induction false} StepsFromRounds(n: nat, k: nat)
    requires k > 0
    ensures n == Rounds(n, k) * k + Place(n, k)
  {
    if n > 0 {
      StepsFromRounds(n - 1, k);
      OneMore(Rounds(n - 1, k), k);
    }
  }

  function RoundRobin(actions: seq<string>, n: nat): (r: seq<string>)
    requires |actions| > 0
    ensures |r| == n
  {
    seq(n, i requires 0 <= i < n => actions[Place(i, |actions|)])
  }

  ghost predicate AllDifferent(actions: seq<string>, hash: string -> nat) {
    forall i, j :: 0 <= i < j < |actions| ==> hash(actions[i]) != hash(actions[j])
  }

  lemma {:induction false} RoundRobinCount(actions: seq<string>, hash: string -> nat, n: nat, j: nat)
    requires j < |actions| && AllDifferent(actions, hash)
    ensures Occurrences(HashesOf(RoundRobin(actions, n), hash), hash(actions[j]))
         == Rounds(n, |actions|) + (if j < Place(n, |actions|) then 1 else 0)
  {
    var k := |actions|;
    if n > 0 {
      RoundRobinCount(actions, hash, n - 1, j);
      var before, at := RoundRobin(actions, n - 1), Place(n - 1, k);
      assert RoundRobin(actions, n) == before + [actions[at]];
      HashesAppend(before, actions[at], hash);
      OccurrencesAppend(HashesOf(before, hash), hash(actions[j]), hash(actions[at]));
      assert hash(actions[at]) == hash(actions[j]) <==> at == j;
    }
  }

  lemma NearPlacesDiffer(i: nat, k: nat)
    requires k >= 3
    ensures Place(i, k) != Place(i + 1, k) && Place(i, k) != Place(i + 2, k)
  {
    assert Place(i + 1, k) == if Place(i, k) == k - 1 then 0 else Place(i, k) + 1;
    assert Place(i + 2, k) == if Place(i + 1, k) == k - 1 then 0 else Place(i + 1, k) + 1;
  }

  lemma {:induction false} NearHashesDiffer(actions: seq<string>, hash: string -> nat, n: nat, i: nat)
    requires |actions| >= 3 && AllDifferent(actions, hash)
    ensures var hashes := HashesOf(RoundRobin(actions, n), hash);
            && (i + 1 < n ==> hashes[i] != hashes[i + 1])
            && (i + 2 < n ==> hashes[i] != hashes[i + 2])
  {
    NearPlacesDiffer(i, |actions|);
  }

  ghost predicate NearDiffer(hashes: seq<nat>) {
    && (forall i :: 0 <= i < |hashes| - 1 ==> hashes[i] != hashes[i + 1])
    && (forall i :: 0 <= i < |hashes| - 2 ==> hashes[i] != hashes[i + 2])
  }

  lemma NoTail(hashes: seq<nat>, mh: nat, rt: nat)
    requires NearDiffer(hashes) && rt >= 2
    ensures !RepeatedTail(LastN(hashes, mh), rt) && !CycleTail(LastN(hashes, mh))
  {
    var window, n := LastN(hashes, mh), |hashes|;
    if |window| >= 2 {
      assert window[|window| - 2] == hashes[n - 2] && window[|window| - 1] == hashes[n - 2 + 1];
    }
    if |window| >= 4 {
      assert window[|window| - 4] == hashes[n - 4] && window[|window| - 2] == hashes[n - 4 + 2];
    }
  }

  lemma {:induction false} RoundRobinHasNoTail(actions: seq<string>, hash: string -> nat, mh: nat, rt: nat, n: nat)
    requires |actions| >= 3 && AllDifferent(actions, hash) && rt >= 2
    ensures var window := LastN(HashesOf(RoundRobin(actions, n), hash), mh);
            !RepeatedTail(window, rt) && !CycleTail(window)
  {
    var hashes := HashesOf(RoundRobin(actions, n), hash);
    forall i | 0 <= i < n
      ensures i + 1 < n ==> hashes[i] != hashes[i + 1]
      ensures i + 2 < n ==> hashes[i] != hashes[i + 2]
    {
      NearHashesDiffer(actions, hash, n, i);
    }
    NoTail(hashes, mh, rt);
  }

  lemma ProductOrder(a: nat, b: nat, k: nat)
    ensures a <= b ==> a * k <= b * k
  {
  }

  lemma {:induction false} FewerRounds(n: nat, k: nat, limit: nat)
    requires k > 0 && n < limit * k
    ensures Rounds(n, k) < limit
  {
    StepsFromRounds(n, k);
    ProductOrder(limit, Rounds(n, k), k);
  }

  lemma {:induction false} RoundRobinOccurrences(actions: seq<string>, hash: string -> nat, ft: nat, n: nat)
    requires |actions| > 0 && AllDifferent(actions, hash) && ft >= 1 && 1 <= n <= (ft - 1) * |actions|
    ensures var hashes := HashesOf(RoundRobin(actions, n), hash);
            Occurrences(hashes, hashes[n - 1]) < ft
  {
    var k := |actions|;
    RoundRobinCount(actions, hash, n, Place(n - 1, k));
    FewerRounds(n - 1, k, ft - 1);
  }

  lemma {:induction false} RoundRobinNotReported(actions: seq<string>, hash: string -> nat, mh: nat, rt: nat, ft: nat,
                                                 n: nat)
    requires |actions| >= 3 && AllDifferent(actions, hash) && rt >= 2 && ft >= 1 && 1 <= n <= (ft - 1) * |actions|
    ensures !LoopReported(RoundRobin(actions, n), hash, mh, rt, ft)
  {
    RoundRobinHasNoTail(actions, hash, mh, rt, n);
    RoundRobinOccurrences(actions, hash, ft, n);
  }

  /** Going round K >= 3 actions with distinct hashes is a loop that runs K·(threshold - 1) steps unreported. */
  lemma {:induction false} LongCyclesReachTheBound(actions: seq<string>, hash: string -> nat, mh: nat, rt: nat, ft: nat)
    requires |actions| >= 3 && AllDifferent(actions, hash) && rt >= 2 && ft >= 1
    ensures Quiet(RoundRobin(actions, (ft - 1) * |actions|), hash, mh, rt, ft)
  {
    var history := RoundRobin(actions, (ft - 1) * |actions|);
    forall n | 1 <= n <= |history| ensures !LoopReported(history[..n], hash, mh, rt, ft) {
      assert history[..n] == RoundRobin(actions, n);
      RoundRobinNotReported(actions, hash, mh, rt, ft, n);
    }
  }

  // ---- Two actions ----

  predicate First(i: nat) {
    i % 4 == 0 || i % 4 == 3
  }

  /** A B B A, over and over: never three in a row, never A B A B, and as many of either after every second step. */
  function Weave(a: string, b: string, n: nat): (r: seq<string>)
    ensures |r| == n
  {
    seq(n, i requires 0 <= i < n => if First(i) then a else b)
  }

  /** How often the first action stands among the first `n`. */
  function Firsts(n: nat): (r: nat)
    ensures n - 1 <= 2 * r <= n + 1 && (n % 2 == 0 ==> 2 * r == n)
    ensures n % 4 == 1 ==> 2 * r == n + 1
    ensures n % 4 == 3 ==> 2 * r == n - 1
  {
    if n == 0 then 0 else Firsts(n - 1) + (if First(n - 1) then 1 else 0)
  }

  lemma {:induction false} WeaveCount(a: string, b: string, hash: string -> nat, n: nat)
    requires hash(a) != hash(b)
    ensures var hashes := HashesOf(Weave(a, b, n), hash);
            Occurrences(hashes, hash(a)) == Firsts(n) && Occurrences(hashes, hash(b)) == n - Firsts(n)
  {
    if n > 0 {
      var before, next := Weave(a, b, n - 1), if First(n - 1) then a else b;
      WeaveCount(a, b, hash, n - 1);
      assert Weave(a, b, n) == before + [next];
      HashesAppend(before, next, hash);
      OccurrencesAppend(HashesOf(before, hash), hash(a), hash(next));
      OccurrencesAppend(HashesOf(before, hash), hash(b), hash(next));
    }
  }

  ghost predicate SecondDiffer(hashes: seq<nat>) {
    forall i :: 0 <= i < |hashes| - 2 ==> hashes[i] != hashes[i + 2]
  }

  lemma {:induction false} WeaveSecondDiffer(a: string, b: string, hash: string -> nat, n: nat)
    requires hash(a) != hash(b)
    ensures SecondDiffer(HashesOf(Weave(a, b, n), hash))
  {
    forall i | 0 <= i < n - 2 ensures HashesOf(Weave(a, b, n), hash)[i] != HashesOf(Weave(a, b, n), hash)[i + 2] {
      assert First(i) <==> !First(i + 2);
    }
  }

  lemma NoLongTail(hashes: seq<nat>, mh: nat, rt: nat)
    requires SecondDiffer(hashes) && rt >= 3
    ensures !RepeatedTail(LastN(hashes, mh), rt) && !CycleTail(LastN(hashes, mh))
  {
    var window, n := LastN(hashes, mh), |hashes|;
    if |window| >= 3 {
      assert window[|window| - 3] == hashes[n - 3] && window[|window| - 1] == hashes[n - 3 + 2];
    }
    if RepeatedTail(window, rt) {
      RepeatedEnds(window, rt);
    }
  }

  lemma RepeatedEnds(window: seq<nat>, n: nat)
    requires RepeatedTail(window, n) && n >= 3
    ensures |window| >= 3 && window[|window| - 1] == window[|window| - 3]
  {
    assert window[|window| - 1] == window[|window| - n] && window[|window| - 3] == window[|window| - n];
  }

  lemma {:induction false} WeaveOccurrences(a: string, b: string, hash: string -> nat, ft: nat, n: nat)
    requires hash(a) != hash(b) && ft >= 1 && 1 <= n <= (ft - 1) * 2
    ensures var hashes := HashesOf(Weave(a, b, n), hash);
            Occurrences(hashes, hashes[n - 1]) < ft
  {
    WeaveCount(a, b, hash, n);
    assert 2 * Firsts(n) <= 2 * (ft - 1) && 2 * (n - Firsts(n)) <= 2 * (ft - 1);
  }

  lemma {:induction false} WeaveNotReported(a: string, b: string, hash: string -> nat, mh: nat, rt: nat, ft: nat,
                                            n: nat)
    requires hash(a) != hash(b) && rt >= 3 && ft >= 1 && 1 <= n <= (ft - 1) * 2
    ensures !LoopReported(Weave(a, b, n), hash, mh, rt, ft)
  {
    WeaveSecondDiffer(a, b, hash, n);
    NoLongTail(HashesOf(Weave(a, b, n), hash), mh, rt);
    WeaveOccurrences(a, b, hash, ft, n);
  }

  /** Two actions with distinct hashes reach the bound as well, once three repeats are tolerated. */
  lemma {:induction false} TwoActionsReachTheBound(a: string, b: string, hash: string -> nat, mh: nat, rt: nat, ft: nat)
    requires hash(a) != hash(b) && rt >= 3 && ft >= 1
    ensures Quiet(Weave(a, b, (ft - 1) * 2), hash, mh, rt, ft)
  {
    var history := Weave(a, b, (ft - 1) * 2);
    forall n | 1 <= n <= |history| ensures !LoopReported(history[..n], hash, mh, rt, ft) {
      assert history[..n] == Weave(a, b, n);
      WeaveNotReported(a, b, hash, mh, rt, ft, n);
    }
  }

  /** When two repeats are already reported, a window of four stops any run over two hashes at the fourth action. */
  lemma {:induction false} TwoActionsStopAtFour(history: seq<string>, hash: string -> nat, mh: nat, ft: nat, x: nat,
                                                y: nat)
    requires Quiet(history, hash, mh, 2, ft) && mh >= 4
    requires forall i :: 0 <= i < |history| ==> hash(history[i]) == x || hash(history[i]) == y
    ensures |history| <= 3
  {
    if |history| >= 4 {
      FirstFourDiffer(history, hash, mh, ft);
      assert !LoopReported(history[..4], hash, mh, 2, ft);
      FourthCloses(history[..4], hash, mh, ft, x, y);
    }
  }

  lemma {:induction false} FirstFourDiffer(history: seq<string>, hash: string -> nat, mh: nat, ft: nat)
    requires Quiet(history, hash, mh, 2, ft) && mh >= 4 && |history| >= 4
    ensures forall i :: 0 <= i < 3 ==> hash(history[..4][i]) != hash(history[..4][i + 1])
  {
    forall i | 0 <= i < 3 ensures hash(history[..4][i]) != hash(history[..4][i + 1]) {
      AdjacentDiffer(history, hash, mh, ft, i + 2);
    }
  }

  lemma {:induction false} FourthCloses(history: seq<string>, hash: string -> nat, mh: nat, ft: nat, x: nat, y: nat)
    requires |history| == 4 && mh >= 4
    requires forall i :: 0 <= i < 4 ==> hash(history[i]) == x || hash(history[i]) == y
    requires forall i :: 0 <= i < 3 ==> hash(history[i]) != hash(history[i + 1])
    ensures LoopReported(history, hash, mh, 2, ft)
  {
    var window := LastN(HashesOf(history, hash), mh);
    assert window == HashesOf(history, hash);
    assert hash(history[0]) != hash(history[0 + 1]) && hash(history[1]) != hash(history[1 + 1]);
    assert hash(history[2]) != hash(history[2 + 1]);
    assert CycleTail(window);
  }

  lemma {:induction false} AdjacentDiffer(history: seq<string>, hash: string -> nat, mh: nat, ft: nat, n: nat)
    requires Quiet(history, hash, mh, 2, ft) && mh >= 4 && 2 <= n <= 4 && n <= |history|
    ensures hash(history[n - 2]) != hash(history[n - 1])
  {
    assert !LoopReported(history[..n], hash, mh, 2, ft);
    ReportedExactly(history[..n], hash, mh, 2, ft);
  }
}
