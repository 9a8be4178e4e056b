/** Level 3, the emergency step: system messages, a handoff note, and the last few messages are all that remains. */
module CompactLevel3 {
  import opened Sequences
  import opened Text
  import opened Messages

  function Systems(messages: seq<Message>): seq<Message> {
    Filter(messages, (m: Message) => m.role.System?)
  }

  predicate OnlySystems(messages: seq<Message>) {
    forall i :: 0 <= i < |messages| ==> messages[i].role.System?
  }

  /** A summary is written when something of substance was said before the kept tail. */
  predicate HasHandoff(messages: seq<Message>, cfg: Config) {
    var boundary := if |messages| >= cfg.emergencyKeep then |messages| - cfg.emergencyKeep else 0;
    && boundary >= 2
    && exists i :: 0 <= i < boundary && messages[i].role.Assistant? && ByteLen(messages[i].content) > 20
  }

  /** The handoff is itself a system message; `wording` stands for its text. */
  function Handoff(messages: seq<Message>, cfg: Config, wording: seq<Message> -> string): (r: seq<Message>)
    ensures |r| <= 1 && forall m :: m in r ==> m.role.System?
  {
    if HasHandoff(messages, cfg) then [Message(System, wording(messages), [], None)] else []
  }

  function Tail(messages: seq<Message>, cfg: Config): seq<Message> {
    LastN(messages, cfg.emergencyKeep)
  }

  predicate Acts(messages: seq<Message>, cfg: Config) {
    |messages| > cfg.emergencyKeep + 1
  }

  function Level3(messages: seq<Message>, cfg: Config, wording: seq<Message> -> string): seq<Message> {
    if !Acts(messages, cfg) then messages
    else Systems(messages) + Handoff(messages, cfg, wording) + Tail(messages, cfg)
  }

  // ---- What survives ----

  lemma {:induction false} AllSystems(messages: seq<Message>)
    requires OnlySystems(messages)
    ensures Systems(messages) == messages
  {
    if |messages| > 0 {
      AllSystems(messages[..|messages| - 1]);
    }
  }

  lemma SystemsAreSystems(messages: seq<Message>)
    ensures OnlySystems(Systems(messages))
  {
    forall i | 0 <= i < |Systems(messages)| ensures Systems(messages)[i].role.System? {
      assert Systems(messages)[i] in Systems(messages);
    }
  }

  /** Every system message survives, in order and ahead of any other; those of the tail come a second time. */
  lemma {:induction false} SystemsSurvive(messages: seq<Message>, cfg: Config, wording: seq<Message> -> string)
    ensures Systems(messages) <= Systems(Level3(messages, cfg, wording))
    ensures Acts(messages, cfg) ==>
              Systems(Level3(messages, cfg, wording))
              == Systems(messages) + Handoff(messages, cfg, wording) + Systems(Tail(messages, cfg))
  {
    if Acts(messages, cfg) {
      var sys, handoff, tail := Systems(messages), Handoff(messages, cfg, wording), Tail(messages, cfg);
      SystemsAreSystems(messages);
      AllSystems(sys);
      AllSystems(handoff);
      FilterConcat(sys + handoff, tail, (m: Message) => m.role.System?);
      FilterConcat(sys, handoff, (m: Message) => m.role.System?);
    }
  }

  /** The last messages are exactly those there were: all of a short conversation, else `emergencyKeep` of them. */
  lemma TailSurvives(messages: seq<Message>, cfg: Config, wording: seq<Message> -> string)
    ensures Tail(Level3(messages, cfg, wording), cfg) == Tail(messages, cfg)
    ensures Acts(messages, cfg) ==> |Tail(messages, cfg)| == cfg.emergencyKeep
  {
  }

  ghost predicate SomethingSaid(messages: seq<Message>, n: nat) {
    exists i :: 0 <= i < n && i < |messages| && messages[i].role.Assistant? && ByteLen(messages[i].content) >= 21
  }

  lemma NoteExactly(messages: seq<Message>, cfg: Config)
    requires |messages| > cfg.emergencyKeep + 1
    ensures HasHandoff(messages, cfg) <==> SomethingSaid(messages, |messages| - cfg.emergencyKeep)
  {
  }

  /** The note stands between the system messages and the tail exactly when some assistant among the messages that go
      said more than twenty bytes. */
  lemma {:induction false} HandoffExactly(messages: seq<Message>, cfg: Config, wording: seq<Message> -> string)
    requires |messages| > cfg.emergencyKeep + 1
    ensures var gone := |messages| - cfg.emergencyKeep;
            Level3(messages, cfg, wording)
            == Filter(messages, (m: Message) => m.role.System?)
               + (if SomethingSaid(messages, gone) then [Message(System, wording(messages), [], None)] else [])
               + messages[gone..]
  {
    NoteExactly(messages, cfg);
  }

  // ---- Applying level 3 again ----

  lemma {:induction false} SystemsOfRun(front: seq<Message>, tail: seq<Message>)
    requires OnlySystems(front)
    ensures Systems(front + tail) == front + Systems(tail)
  {
    AllSystems(front);
    FilterConcat(front, tail, (m: Message) => m.role.System?);
  }

  lemma NoSecondHandoff(front: seq<Message>, tail: seq<Message>, cfg: Config)
    requires |tail| == cfg.emergencyKeep && OnlySystems(front)
    ensures !HasHandoff(front + tail, cfg)
  {
    assert forall i :: 0 <= i < |front| ==> (front + tail)[i] == front[i];
  }

  /** The result of an acting run, seen as the input of the next: system messages, then the tail. */
  lemma {:induction false} SecondRun(front: seq<Message>, tail: seq<Message>, cfg: Config,
                                     wording: seq<Message> -> string)
    requires |tail| == cfg.emergencyKeep && OnlySystems(front)
    ensures Level3(front + tail, cfg, wording) == if |front| <= 1 then front + tail else front + Systems(tail) + tail
  {
    SystemsOfRun(front, tail);
    NoSecondHandoff(front, tail, cfg);
    assert Tail(front + tail, cfg) == tail;
    assert front + Systems(tail) + [] == front + Systems(tail);
  }

  function Front(messages: seq<Message>, cfg: Config, wording: seq<Message> -> string): seq<Message> {
    Systems(messages) + Handoff(messages, cfg, wording)
  }

  lemma {:induction false} FrontIsSystems(messages: seq<Message>, cfg: Config, wording: seq<Message> -> string)
    ensures OnlySystems(Front(messages, cfg, wording))
  {
    SystemsAreSystems(messages);
  }

  /** After an acting run, a second one changes nothing exactly when the kept tail holds no system message or at
      most one message stands before it. */
  lemma {:induction false} IdempotentExactly(messages: seq<Message>, cfg: Config, wording: seq<Message> -> string)
    requires Acts(messages, cfg)
    ensures var once := Level3(messages, cfg, wording);
            Level3(once, cfg, wording) == once
            <==> |Systems(Tail(messages, cfg))| == 0 || |Front(messages, cfg, wording)| <= 1
  {
    var front, tail := Front(messages, cfg, wording), Tail(messages, cfg);
    FrontIsSystems(messages, cfg, wording);
    SecondRun(front, tail, cfg, wording);
    if |Systems(tail)| == 0 {
      assert front + Systems(tail) == front;
    }
  }

  function Repeat(messages: seq<Message>, cfg: Config, wording: seq<Message> -> string, runs: nat): seq<Message> {
    Iterate((m: seq<Message>) => Level3(m, cfg, wording), messages, runs)
  }

  function GrownFront(front: seq<Message>, tail: seq<Message>, runs: nat): seq<Message> {
    if runs == 0 then front else GrownFront(front, tail, runs - 1) + Systems(tail)
  }

  lemma {:induction false} GrownFrontIsSystems(front: seq<Message>, tail: seq<Message>, runs: nat)
    requires OnlySystems(front)
    ensures OnlySystems(GrownFront(front, tail, runs))
    ensures |GrownFront(front, tail, runs)| == |front| + runs * |Systems(tail)|
  {
    if runs > 0 {
      GrownFrontIsSystems(front, tail, runs - 1);
      SystemsAreSystems(tail);
      assert runs * |Systems(tail)| == (runs - 1) * |Systems(tail)| + |Systems(tail)|;
    }
  }

  lemma {:induction false} GrowsByTail(front: seq<Message>, tail: seq<Message>, cfg: Config,
                                       wording: seq<Message> -> string, runs: nat)
    requires |tail| == cfg.emergencyKeep && OnlySystems(front) && |front| >= 2
    ensures Level3(GrownFront(front, tail, runs) + tail, cfg, wording) == GrownFront(front, tail, runs + 1) + tail
  {
    GrownFrontIsSystems(front, tail, runs);
    SecondRun(GrownFront(front, tail, runs), tail, cfg, wording);
  }

  lemma {:induction false} RepeatShape(messages: seq<Message>, cfg: Config, wording: seq<Message> -> string,
                                       front: seq<Message>, tail: seq<Message>, runs: nat)
    requires Level3(messages, cfg, wording) == front + tail
    requires |tail| == cfg.emergencyKeep && OnlySystems(front) && |front| >= 2
    ensures Repeat(messages, cfg, wording, runs + 1) == GrownFront(front, tail, runs) + tail
  {
    var again := (m: seq<Message>) => Level3(m, cfg, wording);
    var grown := (k: nat) => GrownFront(front, tail, k) + tail;
    forall k: nat ensures again(grown(k)) == grown(k + 1) {
      GrowsByTail(front, tail, cfg, wording, k);
    }
    IterateFollows(again, grown, runs);
    IterateFirst(again, messages, runs);
  }

  /** Otherwise every further run adds the tail's system messages once more: the emergency step keeps growing the
      conversation it is meant to shrink. */
  lemma {:induction false} RepeatedRunsGrow(messages: seq<Message>, cfg: Config, wording: seq<Message> -> string,
                                            runs: nat)
    requires Acts(messages, cfg) && |Front(messages, cfg, wording)| >= 2
    ensures |Repeat(messages, cfg, wording, runs + 1)|
         == |Level3(messages, cfg, wording)| + runs * |Systems(Tail(messages, cfg))|
  {
    FrontIsSystems(messages, cfg, wording);
    RepeatShape(messages, cfg, wording, Front(messages, cfg, wording), Tail(messages, cfg), runs);
    GrownFrontIsSystems(Front(messages, cfg, wording), Tail(messages, cfg), runs);
  }
}
