/** Log levels by dotted module path: the longest matching rule wins, answers are cached. */
module LogFilter {
  import opened Wrappers

  /** str.split(".") */
  function Split(s: string): (parts: seq<string>)
    ensures |parts| > 0
    decreases |s|
  {
    if s == [] then [""]
    else if s[0] == '.' then [""] + Split(s[1..])
    else
      var rest := Split(s[1..]);
      [[s[0]] + rest[0]] + rest[1..]
  }

  function Join(parts: seq<string>): string
    requires |parts| > 0
  {
    if |parts| == 1 then parts[0] else parts[0] + "." + Join(parts[1..])
  }

  /** Joining undoes splitting. */
  lemma {:induction false} JoinSplit(s: string)
    ensures Join(Split(s)) == s
    decreases |s|
  {
    if s != [] {
      JoinSplit(s[1..]);
      var rest := Split(s[1..]);
      if s[0] == '.' {
        assert ([""] + rest)[1..] == rest;
      } else {
        assert s == [s[0]] + s[1..];
        assert Split(s)[1..] == rest[1..];
        if |rest| > 1 {
          assert [s[0]] + rest[0] + "." + Join(rest[1..]) == [s[0]] + (rest[0] + "." + Join(rest[1..]));
        }
      }
    }
  }

  /** Splitting leaves no dot in a part, which with the lemma above determines the parts. */
  lemma {:induction false} NoDotInParts(s: string)
    ensures forall part :: part in Split(s) ==> '.' !in part
    decreases |s|
  {
    if s != [] {
      NoDotInParts(s[1..]);
      var rest := Split(s[1..]);
      assert rest[0] in rest && forall part :: part in rest[1..] ==> part in rest;
    }
  }

  lemma {:induction false} PartsAreUnique(parts: seq<string>, s: string)
    requires |parts| > 0 && Join(parts) == s && forall part :: part in parts ==> '.' !in part
    ensures parts == Split(s)
    decreases |s|, |parts|
  {
    if parts[0] == [] {
      if |parts| > 1 {
        assert s == "." + Join(parts[1..]) && s[1..] == Join(parts[1..]);
        assert forall part :: part in parts[1..] ==> part in parts;
        PartsAreUnique(parts[1..], s[1..]);
        assert parts == [""] + parts[1..];
      }
    } else {
      var shorter := [parts[0][1..]] + parts[1..];
      assert shorter[1..] == parts[1..];
      assert parts[0] in parts && parts[0][0] in parts[0] && forall part :: part in parts[1..] ==> part in parts;
      assert parts[0] == [parts[0][0]] + parts[0][1..] && forall c :: c in parts[0][1..] ==> c in parts[0];
      assert Join(shorter) == s[1..] by {
        assert s == [parts[0][0]] + Join(shorter);
      }
      PartsAreUnique(shorter, s[1..]);
    }
  }

  /** The module path of a logger; the empty name has none. */
  function Modules(name: string): seq<string> {
    if name == [] then [] else Split(name)
  }

  lemma ModulesInjective(a: string, b: string)
    requires Modules(a) == Modules(b)
    ensures a == b
  {
    JoinSplit(a);
    JoinSplit(b);
  }

  datatype Rule = Rule(logger: string, level: string)

  /** sys.maxsize; no list is longer. */
  const MAXSIZE: nat := 0x7fff_ffff_ffff_ffff

  predicate Matches(rule: Rule, name: string) { Modules(rule.logger) <= Modules(name) }

  /** _match_list */
  function MatchLength(rule: Rule, name: string): (int, Option<string>) {
    if Modules(name) == Modules(rule.logger) then (MAXSIZE, Some(rule.level))
    else if Matches(rule, name) then (|Modules(rule.logger)|, Some(rule.level))
    else (0, None)
  }

  /** A configuration is a dictionary: one rule per logger. */
  predicate OnePerLogger(rules: seq<Rule>) {
    forall i, j :: 0 <= i < j < |rules| ==> rules[i].logger != rules[j].logger
  }

  /** rule is the most specific of the rules that apply to the logger. */
  ghost predicate MostSpecific(rules: seq<Rule>, name: string, rule: Rule) {
    && rule in rules && Matches(rule, name)
    && forall r :: r in rules && Matches(r, name) ==> |Modules(r.logger)| <= |Modules(rule.logger)|
  }

  /** The level for the empty logger, or the given default. */
  function DefaultLevel(rules: seq<Rule>, default: string): string {
    if rules == [] then default
    else if rules[|rules| - 1].logger == "" then rules[|rules| - 1].level
    else DefaultLevel(rules[..|rules| - 1], default)
  }

  /** What the rules prescribe for a logger: the level of the most specific rule, or the default. */
  ghost predicate Prescribes(rules: seq<Rule>, default: string, name: string, level: string) {
    if exists rule :: rule in rules && Matches(rule, name) then
      exists rule :: MostSpecific(rules, name, rule) && level == rule.level
    else level == default
  }

  /** Only one rule can be the most specific. */
  lemma MostSpecificUnique(rules: seq<Rule>, name: string, r: Rule, r': Rule)
    requires OnePerLogger(rules) && MostSpecific(rules, name, r) && MostSpecific(rules, name, r')
    ensures r == r'
  {
    assert Modules(r.logger) == Modules(name)[..|Modules(r.logger)|];
    assert Modules(r'.logger) == Modules(name)[..|Modules(r'.logger)|];
    ModulesInjective(r.logger, r'.logger);
    var i :| 0 <= i < |rules| && rules[i] == r;
    var j :| 0 <= j < |rules| && rules[j] == r';
  }

  /** The prescribed level depends on which rules there are, not on their order. */
  lemma OrderDoesNotMatter(rules: seq<Rule>, rules': seq<Rule>, default: string, name: string, level: string,
                           level': string)
    requires OnePerLogger(rules) && OnePerLogger(rules') && forall r :: r in rules <==> r in rules'
    requires Prescribes(rules, default, name, level) && Prescribes(rules', default, name, level')
    ensures level == level'
  {
    if rule :| rule in rules && Matches(rule, name) {
      var r :| MostSpecific(rules, name, r) && level == r.level;
      assert rule in rules';
      var r' :| MostSpecific(rules', name, r') && level' == r'.level;
      assert MostSpecific(rules, name, r');
      MostSpecificUnique(rules, name, r, r');
    }
  }

  /** best is the largest match length among the rules, and level the level of a rule that has it. */
  ghost predicate Best(rules: seq<Rule>, default: string, name: string, best: int, level: string) {
    && (forall r :: r in rules ==> MatchLength(r, name).0 <= best)
    && best >= 0
    && (best == 0 ==> level == default)
    && (best > 0 ==> exists r :: r in rules && MatchLength(r, name).0 == best && level == r.level)
  }

  lemma BestSnoc(rules: seq<Rule>, rule: Rule, default: string, name: string, best: int, level: string)
    requires Best(rules, default, name, best, level)
    ensures var (length, ruleLevel) := MatchLength(rule, name);
            if length > best && ruleLevel.Some? then Best(rules + [rule], default, name, length, ruleLevel.value)
            else Best(rules + [rule], default, name, best, level)
  {
    assert rule in rules + [rule];
    assert forall r :: r in rules + [rule] <==> r in rules || r == rule;
  }

  lemma {:induction false} DefaultLevelIs(rules: seq<Rule>, default: string, r: Rule)
    requires OnePerLogger(rules) && r in rules && r.logger == ""
    ensures DefaultLevel(rules, default) == r.level
  {
    var last, before := rules[|rules| - 1], rules[..|rules| - 1];
    if last != r {
      var i :| 0 <= i < |rules| && rules[i] == r;
      assert last.logger != "";
      assert rules == before + [last];
      DefaultLevelIs(before, default, r);
    }
  }

  lemma {:induction false} DefaultLevelNone(rules: seq<Rule>, default: string)
    requires forall r :: r in rules ==> r.logger != ""
    ensures DefaultLevel(rules, default) == default
  {
    if rules != [] {
      assert rules[|rules| - 1] in rules;
      DefaultLevelNone(rules[..|rules| - 1], default);
    }
  }

  /** Matching counts as the code computes them single out the prescribed level. */
  lemma BestIsPrescribed(rules: seq<Rule>, default: string, name: string, best: int, level: string)
    requires OnePerLogger(rules) && |Modules(name)| <= MAXSIZE
    requires Best(rules, DefaultLevel(rules, default), name, best, level)
    ensures Prescribes(rules, default, name, level)
  {
    if best > 0 {
      var r :| r in rules && MatchLength(r, name).0 == best && level == r.level;
      forall r' | r' in rules && Matches(r', name)
        ensures |Modules(r'.logger)| <= |Modules(r.logger)|
      {
        assert MatchLength(r', name).0 <= best;
      }
      assert MostSpecific(rules, name, r);
    } else if rule :| rule in rules && Matches(rule, name) {
      assert MatchLength(rule, name).0 <= 0;
      assert Modules(rule.logger) == [];
      DefaultLevelIs(rules, default, rule);
      forall r' | r' in rules && Matches(r', name)
        ensures |Modules(r'.logger)| <= 0
      {
        assert MatchLength(r', name).0 <= 0;
      }
      assert MostSpecific(rules, name, rule);
    } else {
      forall r | r in rules
        ensures r.logger != ""
      {
        assert !Matches(r, name);
      }
      DefaultLevelNone(rules, default);
    }
  }

  class Filter {
    const rules: seq<Rule>
    const defaultLevel: string
    /** The numeric value of a level name. */
    const numeric: string -> int
    ghost const fallback: string
    var cache: map<(string, string), bool>

    constructor (config: seq<Rule>, default: string, numeric: string -> int)
      requires OnePerLogger(config)
      ensures Valid() && rules == config && fallback == default && this.numeric == numeric && cache == map[]
    {
      rules, defaultLevel, fallback := config, DefaultLevel(config, default), default;
      this.numeric, cache := numeric, map[];
    }

    ghost predicate Valid()
      reads this
    {
      && OnePerLogger(rules) && defaultLevel == DefaultLevel(rules, fallback)
      && forall key :: key in cache ==> Answers(key.0, key.1, cache[key])
    }

    /** The uncached answer: the event's level reaches the one prescribed for the logger. */
    ghost predicate Answers(name: string, level: string, answer: bool) {
      exists prescribed :: Prescribes(rules, fallback, name, prescribed) && answer == (numeric(level) >= numeric(prescribed))
    }

    /** The level of the longest rule that is a prefix of the logger's module path, else the default. */
    method GetLogLevel(name: string) returns (level: string)
      requires Valid() && |Modules(name)| <= MAXSIZE
      ensures Prescribes(rules, fallback, name, level)
    {
      var best := 0;
      level := defaultLevel;
      for i := 0 to |rules|
        invariant Best(rules[..i], defaultLevel, name, best, level)
      {
        assert rules[..i + 1] == rules[..i] + [rules[i]];
        BestSnoc(rules[..i], rules[i], defaultLevel, name, best, level);
        var (length, ruleLevel) := MatchLength(rules[i], name);
        if length > best && ruleLevel.Some? {
          best, level := length, ruleLevel.value;
        }
      }
      assert rules[..|rules|] == rules;
      BestIsPrescribed(rules, fallback, name, best, level);
    }

    /** The same answer whether it is computed or found in the cache. */
    method ShouldLog(name: string, level: string) returns (answer: bool)
      requires Valid() && |Modules(name)| <= MAXSIZE
      modifies this`cache
      ensures Valid() && Answers(name, level, answer)
      ensures cache == old(cache)[(name, level) := answer]
      ensures (name, level) in old(cache) ==> cache == old(cache)
    {
      if (name, level) !in cache {
        var prescribed := GetLogLevel(name);
        cache := cache[(name, level) := numeric(level) >= numeric(prescribed)];
      }
      answer := cache[(name, level)];
    }

    /** The rules determine the answer, so no sequence of calls can make the cache disagree with them. */
    lemma AnswerUnique(name: string, level: string, a: bool, b: bool)
      requires Valid() && Answers(name, level, a) && Answers(name, level, b)
      ensures a == b
    {
      var p :| Prescribes(rules, fallback, name, p) && a == (numeric(level) >= numeric(p));
      var q :| Prescribes(rules, fallback, name, q) && b == (numeric(level) >= numeric(q));
      OrderDoesNotMatter(rules, rules, fallback, name, p, q);
    }
  }
}
