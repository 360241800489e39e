/**
 * The personality test of `routers/personality.py`: the answers become a traits
 * map (question key name to the chosen option's tag), and the profile rule whose
 * required tags all occur among the traits and whose score is highest is chosen.
 * The question, option and rule tables are inputs.
 */
module Personality {
  import opened Wrappers

  /** A `ProfileRule` row. */
  datatype ProfileRule = ProfileRule(profileCode: string, displayName: string, description: string,
                                     priority: int, requiredTags: seq<string>)

  /** Every required tag of the rule is among the trait values. */
  predicate Qualifies(rule: ProfileRule, values: set<string>) {
    forall i :: 0 <= i < |rule.requiredTags| ==> rule.requiredTags[i] in values
  }

  /** `1000 - rule.priority + match_count` for a qualifying rule, where the count is the number of required tags. */
  function Score(rule: ProfileRule): int {
    1000 - rule.priority + |rule.requiredTags|
  }

  /** The inner loop's `match_count`: how many entries of `tags` are trait values. */
  function MatchCount(tags: seq<string>, values: set<string>): (n: nat)
    ensures n <= |tags|
  {
    if tags == [] then 0
    else MatchCount(tags[..|tags| - 1], values) + (if tags[|tags| - 1] in values then 1 else 0)
  }

  /** `match_count == len(required_tags)` is exactly "every required tag is a trait value". */
  lemma {:induction false} MatchCountAll(tags: seq<string>, values: set<string>)
    ensures MatchCount(tags, values) == |tags| <==> forall i :: 0 <= i < |tags| ==> tags[i] in values
  {
    if tags != [] {
      var init := tags[..|tags| - 1];
      MatchCountAll(init, values);
      assert forall i :: 0 <= i < |init| ==> init[i] == tags[i];
      if MatchCount(tags, values) == |tags| {
        assert MatchCount(init, values) == |init| && tags[|tags| - 1] in values;
      }
    }
  }

  /**
   * The outer loop of `find_matching_profile` over `rules`: the final
   * `best_score` (starting at -1) and the index of `best_match`.
   */
  function Best(rules: seq<ProfileRule>, values: set<string>): (int, Option<nat>) {
    if rules == [] then (-1, None)
    else
      var prev := Best(rules[..|rules| - 1], values);
      var rule := rules[|rules| - 1];
      if Qualifies(rule, values) && Score(rule) > prev.0 then (Score(rule), Some(|rules| - 1)) else prev
  }

  /** Rule `k` is the loop's pick: it qualifies, beats -1, scores highest, and strictly beats every earlier qualifying rule. */
  predicate IsBestMatch(rules: seq<ProfileRule>, values: set<string>, k: nat) {
    k < |rules| && Qualifies(rules[k], values) && Score(rules[k]) > -1
    && (forall j :: 0 <= j < |rules| && Qualifies(rules[j], values) ==> Score(rules[j]) <= Score(rules[k]))
    && (forall j :: 0 <= j < k && Qualifies(rules[j], values) ==> Score(rules[j]) < Score(rules[k]))
  }

  /** No rule qualifies with a score above the initial `best_score` of -1. */
  predicate NoneQualifies(rules: seq<ProfileRule>, values: set<string>) {
    forall j :: 0 <= j < |rules| ==> !(Qualifies(rules[j], values) && Score(rules[j]) > -1)
  }

  /**
   * The loop finds nothing iff no rule qualifies with a score above -1, and
   * otherwise the best-scoring qualifying rule, the first one on ties.
   */
  lemma {:induction false} BestIsBest(rules: seq<ProfileRule>, values: set<string>)
    ensures Best(rules, values).1.None? <==> NoneQualifies(rules, values)
    ensures Best(rules, values).1.None? ==> Best(rules, values).0 == -1
    ensures Best(rules, values).1.Some? ==>
              IsBestMatch(rules, values, Best(rules, values).1.value)
              && Best(rules, values).0 == Score(rules[Best(rules, values).1.value])
  {
    if rules != [] {
      var init := rules[..|rules| - 1];
      BestIsBest(init, values);
      assert forall j :: 0 <= j < |init| ==> init[j] == rules[j];
    }
  }

  /** At most one rule is the loop's pick. */
  lemma BestMatchUnique(rules: seq<ProfileRule>, values: set<string>, k1: nat, k2: nat)
    requires IsBestMatch(rules, values, k1) && IsBestMatch(rules, values, k2)
    ensures k1 == k2
  {
  }

  /** A rule without required tags qualifies for any traits, so a table holding one with priority at most 1000 always yields a match. */
  lemma EmptyRuleMatches(rules: seq<ProfileRule>, values: set<string>, j: nat)
    requires j < |rules| && rules[j].requiredTags == [] && rules[j].priority <= 1000
    ensures Best(rules, values).1.Some?
  {
    BestIsBest(rules, values);
    assert Qualifies(rules[j], values);
  }

  /** The rule `find_matching_profile` returns, if any. */
  function MatchingProfile(rules: seq<ProfileRule>, traits: map<string, string>): Option<ProfileRule> {
    var b := Best(rules, traits.Values).1;
    if b.Some? && b.value < |rules| then Some(rules[b.value]) else None
  }

  /** `find_matching_profile`. */
  method FindMatchingProfile(rules: seq<ProfileRule>, traits: map<string, string>) returns (best: Option<ProfileRule>)
    ensures best == MatchingProfile(rules, traits)
  {
    var values := traits.Values;
    best := None;
    var bestScore := -1;
    ghost var bestIndex: Option<nat> := None;
    for i := 0 to |rules|
      invariant (bestScore, bestIndex) == Best(rules[..i], values)
      invariant bestIndex.Some? ==> bestIndex.value < i && best == Some(rules[bestIndex.value])
      invariant bestIndex.None? ==> best.None?
    {
      assert rules[..i + 1][..i] == rules[..i];
      var rule := rules[i];
      var matchCount := CountMatches(rule.requiredTags, values);
      MatchCountAll(rule.requiredTags, values);
      if matchCount == |rule.requiredTags| {
        var score := 1000 - rule.priority + matchCount;
        if score > bestScore {
          bestScore := score;
          best := Some(rule);
          bestIndex := Some(i);
        }
      }
    }
    assert rules[..|rules|] == rules;
  }

  /** The inner loop of `find_matching_profile`. */
  method CountMatches(tags: seq<string>, values: set<string>) returns (matchCount: nat)
    ensures matchCount == MatchCount(tags, values)
  {
    matchCount := 0;
    for i := 0 to |tags|
      invariant matchCount == MatchCount(tags[..i], values)
    {
      assert tags[..i + 1][..i] == tags[..i];
      if tags[i] in values {
        matchCount := matchCount + 1;
      }
    }
    assert tags[..|tags|] == tags;
  }

  /** One answer of the test. */
  datatype Answer = Answer(questionId: int, optionId: int)

  /** Why the test is refused with 400. */
  datatype TestError = InvalidOptionId(optionId: int) | InvalidQuestionId(questionId: int) | NoMatchingProfile

  /** The answer's option and question both exist. */
  predicate Known(a: Answer, options: map<int, string>, questions: map<int, string>) {
    a.optionId in options && a.questionId in questions
  }

  /**
   * The answers loop of `submit_personality_test`: `options` maps an option id
   * to its trait tag and `questions` a question id to its key name. Each answer
   * sets `traits[key_name] = trait_tag`; the first unknown option, or else
   * unknown question, is an error.
   */
  function Traits(answers: seq<Answer>, options: map<int, string>, questions: map<int, string>): Result<map<string, string>, TestError> {
    if answers == [] then Ok(map[])
    else
      match Traits(answers[..|answers| - 1], options, questions)
      case Err(e) => Err(e)
      case Ok(t) =>
        var a := answers[|answers| - 1];
        if a.optionId !in options then Err(InvalidOptionId(a.optionId))
        else if a.questionId !in questions then Err(InvalidQuestionId(a.questionId))
        else Ok(t[questions[a.questionId] := options[a.optionId]])
  }

  /**
   * The traits are built iff every answer is known; otherwise the error names
   * the first unknown answer, its option when that is unknown, else its question.
   */
  lemma {:induction false} TraitsErrors(answers: seq<Answer>, options: map<int, string>, questions: map<int, string>)
    ensures Traits(answers, options, questions).Ok? <==> forall j :: 0 <= j < |answers| ==> Known(answers[j], options, questions)
    ensures Traits(answers, options, questions).Err? ==>
              exists k :: 0 <= k < |answers| && !Known(answers[k], options, questions)
                && (forall j :: 0 <= j < k ==> Known(answers[j], options, questions))
                && Traits(answers, options, questions).error ==
                     if answers[k].optionId !in options then InvalidOptionId(answers[k].optionId)
                     else InvalidQuestionId(answers[k].questionId)
  {
    if answers != [] {
      var init := answers[..|answers| - 1];
      TraitsErrors(init, options, questions);
      assert forall j :: 0 <= j < |init| ==> init[j] == answers[j];
      if Traits(init, options, questions).Err? {
        var k :| 0 <= k < |init| && !Known(init[k], options, questions)
                 && (forall j :: 0 <= j < k ==> Known(init[j], options, questions))
                 && Traits(init, options, questions).error ==
                      if init[k].optionId !in options then InvalidOptionId(init[k].optionId)
                      else InvalidQuestionId(init[k].questionId);
        assert init[k] == answers[k];
      }
    }
  }

  /** The key name an answer of a known question sets. */
  function KeyOf(a: Answer, questions: map<int, string>): string {
    if a.questionId in questions then questions[a.questionId] else ""
  }

  /** The trait tag of an answer's known option. */
  function TagOf(a: Answer, options: map<int, string>): string {
    if a.optionId in options then options[a.optionId] else ""
  }

  /** The last answer's key is set to its tag on top of the traits of the earlier answers. */
  lemma TraitsStep(answers: seq<Answer>, options: map<int, string>, questions: map<int, string>)
    requires answers != [] && Traits(answers, options, questions).Ok?
    ensures var init, a := answers[..|answers| - 1], answers[|answers| - 1];
            Traits(init, options, questions).Ok? && Known(a, options, questions)
            && Traits(answers, options, questions).value
                 == Traits(init, options, questions).value[KeyOf(a, questions) := TagOf(a, options)]
  {
  }

  /** Some answer sets `key`. */
  predicate Answered(answers: seq<Answer>, questions: map<int, string>, key: string) {
    exists j :: 0 <= j < |answers| && KeyOf(answers[j], questions) == key
  }

  /** The traits hold one entry per key name answered. */
  lemma {:induction false} TraitsKeys(answers: seq<Answer>, options: map<int, string>, questions: map<int, string>)
    requires Traits(answers, options, questions).Ok?
    ensures forall key :: key in Traits(answers, options, questions).value <==> Answered(answers, questions, key)
  {
    if answers != [] {
      var init := answers[..|answers| - 1];
      TraitsStep(answers, options, questions);
      TraitsKeys(init, options, questions);
      var a := answers[|answers| - 1];
      forall key ensures Answered(answers, questions, key) <==> key == KeyOf(a, questions) || Answered(init, questions, key) {
        if Answered(answers, questions, key) {
          var j :| 0 <= j < |answers| && KeyOf(answers[j], questions) == key;
          if j < |init| {
            assert init[j] == answers[j];
          }
        }
        if Answered(init, questions, key) {
          var j :| 0 <= j < |init| && KeyOf(init[j], questions) == key;
          assert init[j] == answers[j];
        }
      }
    }
  }

  /** No answer after `j` sets the same key as answer `j`. */
  predicate LastWithKey(answers: seq<Answer>, questions: map<int, string>, j: nat) {
    j < |answers| && forall j' :: j < j' < |answers| ==> KeyOf(answers[j'], questions) != KeyOf(answers[j], questions)
  }

  /** Each key's tag is the one chosen by the last answer with that key. */
  lemma {:induction false} TraitsLastWins(answers: seq<Answer>, options: map<int, string>, questions: map<int, string>, j: nat)
    requires Traits(answers, options, questions).Ok?
    requires LastWithKey(answers, questions, j)
    ensures KeyOf(answers[j], questions) in Traits(answers, options, questions).value
    ensures Traits(answers, options, questions).value[KeyOf(answers[j], questions)] == TagOf(answers[j], options)
  {
    var init, a := answers[..|answers| - 1], answers[|answers| - 1];
    TraitsStep(answers, options, questions);
    if j < |init| {
      assert init[j] == answers[j];
      forall j' | j < j' < |init| ensures KeyOf(init[j'], questions) != KeyOf(init[j], questions) {
        assert init[j'] == answers[j'];
      }
      TraitsLastWins(init, options, questions, j);
    }
  }

  /** The answers loop, building `traits` in place. */
  method BuildTraits(answers: seq<Answer>, options: map<int, string>, questions: map<int, string>)
    returns (r: Result<map<string, string>, TestError>)
    ensures r == Traits(answers, options, questions)
  {
    var traits: map<string, string> := map[];
    for i := 0 to |answers|
      invariant Traits(answers[..i], options, questions) == Ok(traits)
    {
      assert answers[..i + 1][..i] == answers[..i];
      var answer := answers[i];
      if answer.optionId !in options {
        assert Traits(answers[..i + 1], options, questions) == Err(InvalidOptionId(answer.optionId));
        TraitsPrefixErr(answers, options, questions, i + 1);
        return Err(InvalidOptionId(answer.optionId));
      }
      if answer.questionId !in questions {
        assert Traits(answers[..i + 1], options, questions) == Err(InvalidQuestionId(answer.questionId));
        TraitsPrefixErr(answers, options, questions, i + 1);
        return Err(InvalidQuestionId(answer.questionId));
      }
      traits := traits[questions[answer.questionId] := options[answer.optionId]];
    }
    assert answers[..|answers|] == answers;
    return Ok(traits);
  }

  /** An error on a prefix of the answers is the error of all of them. */
  lemma {:induction false} TraitsPrefixErr(answers: seq<Answer>, options: map<int, string>, questions: map<int, string>, n: nat)
    requires n <= |answers| && Traits(answers[..n], options, questions).Err?
    ensures Traits(answers, options, questions) == Traits(answers[..n], options, questions)
    decreases |answers| - n
  {
    if n < |answers| {
      var longer := answers[..n + 1];
      assert longer[..n] == answers[..n];
      TraitsPrefixErr(answers, options, questions, n + 1);
    } else {
      assert answers[..n] == answers;
    }
  }

  /** A saved `UserTraitProfile`. */
  datatype TraitProfile = TraitProfile(userId: string, profileCode: string, traits: map<string, string>)

  /** The `TestResultResponse` fields other than the timestamp. */
  datatype TestResult = TestResult(profileCode: string, displayName: string, description: string, traits: map<string, string>)

  /** The result of `submit_personality_test` for the given tables. */
  function TestOutcome(answers: seq<Answer>, options: map<int, string>, questions: map<int, string>,
                       rules: seq<ProfileRule>): Result<TestResult, TestError>
  {
    match Traits(answers, options, questions)
    case Err(e) => Err(e)
    case Ok(traits) =>
      match MatchingProfile(rules, traits)
      case None => Err(NoMatchingProfile)
      case Some(rule) => Ok(TestResult(rule.profileCode, rule.displayName, rule.description, traits))
  }

  /** A successful test reports a rule all of whose required tags were chosen, with the traits that chose them. */
  lemma TestOutcomeQualifies(answers: seq<Answer>, options: map<int, string>, questions: map<int, string>, rules: seq<ProfileRule>)
    requires TestOutcome(answers, options, questions, rules).Ok?
    ensures var res := TestOutcome(answers, options, questions, rules).value;
            Traits(answers, options, questions) == Ok(res.traits)
            && exists k: nat :: IsBestMatch(rules, res.traits.Values, k) && rules[k].profileCode == res.profileCode
  {
    var traits := Traits(answers, options, questions).value;
    BestIsBest(rules, traits.Values);
    var k := Best(rules, traits.Values).1.value;
    assert IsBestMatch(rules, traits.Values, k);
  }

  /** The tables the test reads and the profiles it has saved. */
  class PersonalityService {
    const options: map<int, string>
    const questions: map<int, string>
    const rules: seq<ProfileRule>
    var saved: seq<TraitProfile>

    constructor (options: map<int, string>, questions: map<int, string>, rules: seq<ProfileRule>)
      ensures this.options == options && this.questions == questions && this.rules == rules && saved == []
    {
      this.options, this.questions, this.rules := options, questions, rules;
      saved := [];
    }

    /** `submit_personality_test`: a profile is saved only when the test succeeds. */
    method SubmitPersonalityTest(userId: string, answers: seq<Answer>) returns (r: Result<TestResult, TestError>)
      modifies this`saved
      ensures r == TestOutcome(answers, options, questions, rules)
      ensures saved == if r.Ok? then old(saved) + [TraitProfile(userId, r.value.profileCode, r.value.traits)] else old(saved)
    {
      var traits := BuildTraits(answers, options, questions);
      if traits.Err? {
        return Err(traits.error);
      }
      var rule := FindMatchingProfile(rules, traits.value);
      if rule.None? {
        return Err(NoMatchingProfile);
      }
      saved := saved + [TraitProfile(userId, rule.value.profileCode, traits.value)];
      return Ok(TestResult(rule.value.profileCode, rule.value.displayName, rule.value.description, traits.value));
    }
  }
}
