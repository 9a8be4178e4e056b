/** The fast-path dispatcher: canned answers for matching inputs, at most one per rule name and cooldown. */
module FastPath {
  import opened Sequences
  import opened Text
  import opened Cooldown

  /** `matches` stands for the rule's regular expression. */
  datatype Rule = Rule(name: string, matches: string -> bool, response: string, cooldown: nat)

  datatype Firing = Firing(name: string, cooldown: nat, at: nat)

  /** The first rule that matches; the number of rules when none does. */
  function FirstMatch(rules: seq<Rule>, input: string): (i: nat)
    ensures i <= |rules|
    ensures i < |rules| ==> rules[i].matches(input)
    ensures forall j :: 0 <= j < i ==> !rules[j].matches(input)
  {
    if |rules| == 0 || rules[0].matches(input) then 0 else 1 + FirstMatch(rules[1..], input)
  }

  /** The times at which a name fired. */
  function TimesOf(log: seq<Firing>, name: string): seq<nat> {
    if |log| == 0 then []
    else
      var before, f := TimesOf(log[..|log| - 1], name), log[|log| - 1];
      if f.name == name then before + [f.at] else before
  }

  predicate CoolingDown(log: seq<Firing>, rule: Rule, now: nat) {
    var times := TimesOf(log, rule.name);
    |times| > 0 && now < times[|times| - 1] + rule.cooldown
  }

  predicate ClockReached(log: seq<Firing>, now: nat) {
    forall i :: 0 <= i < |log| ==> log[i].at <= now
  }

  /** Every firing came at least its own rule's cooldown after each earlier firing of the same name. */
  ghost predicate Respected(log: seq<Firing>) {
    forall i, j :: 0 <= i < j < |log| && log[i].name == log[j].name ==> log[j].at >= log[i].at + log[j].cooldown
  }

  lemma {:induction false} TimesOfAppend(log: seq<Firing>, f: Firing, name: string)
    ensures TimesOf(log + [f], name) == if f.name == name then TimesOf(log, name) + [f.at] else TimesOf(log, name)
  {
    assert (log + [f])[..|log|] == log;
  }

  ghost predicate Forward(log: seq<Firing>) {
    forall i, j :: 0 <= i <= j < |log| ==> log[i].at <= log[j].at
  }

  lemma {:induction false} EarlierFirings(log: seq<Firing>, i: nat)
    requires i < |log| && Forward(log)
    ensures var times := TimesOf(log, log[i].name);
            |times| > 0 && log[i].at <= times[|times| - 1]
  {
    var front := log[..|log| - 1];
    if i < |front| && log[|log| - 1].name != log[i].name {
      EarlierFirings(front, i);
    }
  }

  class FastPathDispatcher {
    var rules: seq<Rule>
    var lastTriggered: map<string, nat>
    ghost var log: seq<Firing>

    ghost predicate Valid()
      reads this
    {
      && Forward(log) && Respected(log)
      && forall name ::
           var times := TimesOf(log, name);
           && (name in lastTriggered <==> |times| > 0)
           && (|times| > 0 ==> lastTriggered[name] == times[|times| - 1])
    }

    constructor ()
      ensures Valid() && rules == [] && log == []
    {
      rules, lastTriggered, log := [], map[], [];
    }

    method AddRule(rule: Rule)
      requires Valid()
      modifies this
      ensures Valid() && rules == old(rules) + [rule] && log == old(log)
    {
      rules := rules + [rule];
    }

    /** Answers for the first matching rule unless its name is cooling down; a cooling rule is not skipped over. */
    method TryHandle(input: string, now: nat) returns (answer: Option<string>)
      requires Valid() && ClockReached(log, now)
      modifies this
      ensures Valid() && rules == old(rules)
      ensures var trimmed := Trim(input);
              var i := FirstMatch(rules, trimmed);
              if |trimmed| == 0 || i == |rules| || CoolingDown(old(log), rules[i], now) then
                answer == None && log == old(log)
              else
                answer == Some(rules[i].response) && log == old(log) + [Firing(rules[i].name, rules[i].cooldown, now)]
    {
      var trimmed := Trim(input);
      if |trimmed| == 0 {
        return None;
      }
      ghost var first := FirstMatch(rules, trimmed);
      for r := 0 to |rules|
        invariant log == old(log) && lastTriggered == old(lastTriggered) && rules == old(rules)
        invariant r <= first
      {
        var rule := rules[r];
        if rule.matches(trimmed) {
          assert r == first;
          if rule.name in lastTriggered && now < lastTriggered[rule.name] + rule.cooldown {
            return None;
          }
          Fire(rule, now);
          return Some(rule.response);
        }
      }
      answer := None;
    }

    method Fire(rule: Rule, now: nat)
      requires Valid() && ClockReached(log, now) && !CoolingDown(log, rule, now)
      modifies this
      ensures Valid() && rules == old(rules)
      ensures log == old(log) + [Firing(rule.name, rule.cooldown, now)]
    {
      ghost var f := Firing(rule.name, rule.cooldown, now);
      forall name
        ensures TimesOf(log + [f], name) == if f.name == name then TimesOf(log, name) + [f.at] else TimesOf(log, name)
      {
        TimesOfAppend(log, f, name);
      }
      forall i | 0 <= i < |log| && log[i].name == f.name ensures f.at >= log[i].at + f.cooldown {
        EarlierFirings(log, i);
      }
      log := log + [f];
      lastTriggered := lastTriggered[rule.name := now];
    }
  }

  // ---- The answering rate ----

  lemma {:induction false} TimesOfAreFirings(log: seq<Firing>, name: string, k: nat) returns (i: nat)
    requires k < |TimesOf(log, name)|
    ensures i < |log| && log[i].name == name && log[i].at == TimesOf(log, name)[k]
    ensures TimesOf(log[..i], name) == TimesOf(log, name)[..k]
  {
    var front, f := log[..|log| - 1], log[|log| - 1];
    var before := TimesOf(front, name);
    if f.name == name && k == |before| {
      i := |front|;
    } else {
      i := TimesOfAreFirings(front, name, k);
      assert front[..i] == log[..i];
    }
  }

  /** In every log the dispatcher can produce, a name whose rules all have a cooldown of at least `gap`
      answers n times only over a span of at least (n - 1) gaps. */
  lemma {:induction false} AnswersAreRateLimited(log: seq<Firing>, name: string, gap: nat)
    requires Respected(log) && |TimesOf(log, name)| > 0
    requires forall i :: 0 <= i < |log| && log[i].name == name ==> log[i].cooldown >= gap
    ensures var times := TimesOf(log, name);
            times[0] + (|times| - 1) * gap <= times[|times| - 1]
  {
    var times := TimesOf(log, name);
    forall k | 0 < k < |times| ensures times[k] >= times[k - 1] + gap {
      var j := TimesOfAreFirings(log, name, k);
      var i := TimesOfAreFirings(log[..j], name, k - 1);
      assert log[..j][i] == log[i];
    }
    SpacedSpan(times, gap);
  }
}
