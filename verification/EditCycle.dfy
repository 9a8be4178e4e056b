/** The detector of alternating edits across two or three files. */
module EditCycle {
  import opened Sequences

  function Files(paths: seq<string>): set<string> {
    set p | p in paths
  }

  function Edits(paths: seq<string>, file: string): nat {
    CountIf(paths, (p: string) => p == file)
  }

  const MIN_FILES := 2
  const MAX_FILES := 3

  /** The window that draws a nudge: at least four edits, over two or three files, each edited at least twice. */
  predicate Cycling(paths: seq<string>) {
    && |paths| >= 4
    && MIN_FILES <= |Files(paths)| <= MAX_FILES
    && forall f :: f in Files(paths) ==> Edits(paths, f) >= 2
  }

  // ---- The detector as a function of its event log ----

  datatype Event = Edit(path: string) | Reset

  datatype State = State(recent: seq<string>, fires: nat)

  function Slide(recent: seq<string>, window: nat, path: string): seq<string> {
    var pushed := recent + [path];
    if |pushed| > window then pushed[1..] else pushed
  }

  function Step(s: State, window: nat, e: Event): State {
    match e
    case Reset => State([], s.fires)
    case Edit(path) =>
      var slid := Slide(s.recent, window, path);
      if Cycling(slid) then State([], s.fires + 1) else State(slid, s.fires)
  }

  function Run(window: nat, log: seq<Event>): State {
    if |log| == 0 then State([], 0) else Step(Run(window, log[..|log| - 1]), window, log[|log| - 1])
  }

  lemma {:induction false} RunAppend(window: nat, log: seq<Event>, e: Event)
    ensures Run(window, log + [e]) == Step(Run(window, log), window, e)
  {
    assert (log + [e])[..|log|] == log;
  }

  lemma {:induction false} EditsAppend(paths: seq<string>, p: string, f: string)
    ensures Edits(paths + [p], f) == Edits(paths, f) + (if p == f then 1 else 0)
  {
    assert (paths + [p])[..|paths|] == paths;
  }

  /** The tally of the paths in the window. */
  method CountPaths(paths: seq<string>) returns (counts: map<string, nat>)
    ensures counts.Keys == Files(paths)
    ensures forall f :: f in counts ==> counts[f] == Edits(paths, f)
    ensures |counts| == |Files(paths)|
  {
    counts := map[];
    for i := 0 to |paths|
      invariant counts.Keys == Files(paths[..i])
      invariant forall f :: (if f in counts then counts[f] else 0) == Edits(paths[..i], f)
    {
      TakeNext(paths, i);
      forall f ensures Edits(paths[..i + 1], f) == Edits(paths[..i], f) + (if paths[i] == f then 1 else 0) {
        EditsAppend(paths[..i], paths[i], f);
      }
      counts := counts[paths[i] := (if paths[i] in counts then counts[paths[i]] else 0) + 1];
    }
    assert paths[..|paths|] == paths;
    assert |counts| == |counts.Keys|;
  }

  class MultiFileEditCycleDetector {
    var recentPaths: seq<string>
    var nudgeFireCount: nat
    const window: nat
    ghost var log: seq<Event>

    ghost predicate Valid()
      reads this
    {
      State(recentPaths, nudgeFireCount) == Run(window, log)
    }

    constructor (window: nat)
      ensures Valid() && this.window == window && log == []
    {
      this.window := window;
      recentPaths, nudgeFireCount, log := [], 0, [];
    }

    /** Records an edit; a nudge names the files of the cycle and clears the window. */
    method RecordAndCheck(path: string) returns (nudge: Option<set<string>>)
      requires Valid()
      modifies this
      ensures Valid() && log == old(log) + [Edit(path)]
      ensures var slid := Slide(old(recentPaths), window, path);
              nudge == if Cycling(slid) then Some(Files(slid)) else None
    {
      RunAppend(window, log, Edit(path));
      log := log + [Edit(path)];
      recentPaths := recentPaths + [path];
      if |recentPaths| > window {
        recentPaths := recentPaths[1..];
      }
      if |recentPaths| < 4 {
        return None;
      }
      var counts := CountPaths(recentPaths);
      var unique := |counts|;
      if unique < MIN_FILES || unique > MAX_FILES {
        return None;
      }
      if !(forall f :: f in counts ==> counts[f] >= 2) {
        return None;
      }
      nudge := Some(counts.Keys);
      recentPaths := [];
      nudgeFireCount := nudgeFireCount + 1;
    }

    /** Clears the window but not the session-wide counter. */
    method ResetWindow()
      requires Valid()
      modifies this
      ensures Valid() && log == old(log) + [Reset]
    {
      RunAppend(window, log, Reset);
      log := log + [Reset];
      recentPaths := [];
    }
  }

  // ---- Every nudge is paid for by four edits ----

  function EditCount(log: seq<Event>): nat {
    CountIf(log, (e: Event) => e.Edit?)
  }

  /** In every run, resets included, each nudge uses up at least four recorded edits, and the window never overflows. */
  lemma {:induction false} NudgesAmortised(window: nat, log: seq<Event>)
    ensures 4 * Run(window, log).fires + |Run(window, log).recent| <= EditCount(log)
    ensures |Run(window, log).recent| <= window
    ensures window < 4 ==> Run(window, log).fires == 0
  {
    if |log| > 0 {
      NudgesAmortised(window, log[..|log| - 1]);
    }
  }

  // ---- The bound is tight: two files edited in turn draw a nudge every fourth edit ----

  function Alternating(a: string, b: string, rounds: nat): (r: seq<Event>)
    ensures |r| == 4 * rounds
  {
    if rounds == 0 then [] else Alternating(a, b, rounds - 1) + [Edit(a), Edit(b), Edit(a), Edit(b)]
  }

  lemma {:induction false} FourEditsDrawANudge(window: nat, log: seq<Event>, a: string, b: string)
    requires a != b && window >= 4 && Run(window, log).recent == []
    ensures Run(window, log + [Edit(a), Edit(b), Edit(a), Edit(b)]) == State([], Run(window, log).fires + 1)
  {
    var fires := Run(window, log).fires;
    var log1 := log + [Edit(a)];
    var log2 := log1 + [Edit(b)];
    var log3 := log2 + [Edit(a)];
    RunAppend(window, log, Edit(a));
    RunAppend(window, log1, Edit(b));
    RunAppend(window, log2, Edit(a));
    RunAppend(window, log3, Edit(b));
    assert Run(window, log3) == State([a, b, a], fires);
    AlternationCycles(a, b);
    assert log + [Edit(a), Edit(b), Edit(a), Edit(b)] == log3 + [Edit(b)];
  }

  lemma {:induction false} AlternationCycles(a: string, b: string)
    requires a != b
    ensures Cycling([a, b, a] + [b])
  {
    var w := [a, b, a] + [b];
    assert Files(w) == {a, b};
    forall f ensures Edits(w, f) == Edits([a, b, a], f) + (if b == f then 1 else 0) {
      EditsAppend([a, b, a], b, f);
    }
    forall f ensures Edits([a, b, a], f) == Edits([a, b], f) + (if a == f then 1 else 0) {
      EditsAppend([a, b], a, f);
      assert [a, b] + [a] == [a, b, a];
    }
    forall f ensures Edits([a, b], f) == Edits([a], f) + (if b == f then 1 else 0) {
      EditsAppend([a], b, f);
      assert [a] + [b] == [a, b];
    }
    forall f ensures Edits([a], f) == if a == f then 1 else 0 {
      EditsAppend([], a, f);
      assert [] + [a] == [a];
    }
  }

  lemma {:induction false} AlternatingReachesTheBound(window: nat, a: string, b: string, rounds: nat)
    requires a != b && window >= 4
    ensures Run(window, Alternating(a, b, rounds)) == State([], rounds)
  {
    if rounds > 0 {
      var before := Alternating(a, b, rounds - 1);
      AlternatingReachesTheBound(window, a, b, rounds - 1);
      FourEditsDrawANudge(window, before, a, b);
      assert Alternating(a, b, rounds) == before + [Edit(a), Edit(b), Edit(a), Edit(b)];
    }
  }
}
