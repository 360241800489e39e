/**
 * The discrete parts of the team feature vector of `ml/preprocessing.py`
 * (`TeamFeatureGenerator`): the diversity table, the small-team penalty, the
 * leader-ratio bands, the `"filter_id:award_status"` experience parser and the
 * contest-id check of `create_team_vector`. Scores are exact rationals.
 */
module Preprocessing {
  import opened Wrappers
  import opened Text

  /** A team member as the generator reads it; a missing field is `""`. */
  datatype Member = Member(role: string, skill: string, experience: string, tendencyType: string, goal: string, time: string, problem: string)

  /* ------------------------------------------------------------ diversity */

  /** `set(values)`. */
  function Distinct(values: seq<string>): set<string> {
    set v | v in values
  }

  predicate AllSame(values: seq<string>) {
    forall i :: 0 <= i < |values| ==> values[i] == values[0]
  }

  /** `_calculate_diversity_score`. */
  function DiversityScore(values: seq<string>): int {
    if values == [] then 0
    else if |values| == 1 then 30
    else if |Distinct(values)| == 1 then 40
    else if |Distinct(values)| == |values| then 70
    else 90
  }

  lemma DistinctSnoc(s: seq<string>, x: string)
    ensures Distinct(s + [x]) == Distinct(s) + {x}
  {
  }

  /** There are at most as many distinct values as values, and exactly as many iff none repeats. */
  lemma {:induction false} DistinctCount(s: seq<string>)
    ensures |Distinct(s)| <= |s|
    ensures |Distinct(s)| == |s| <==> NoDuplicates(s)
  {
    if s == [] {
      assert Distinct(s) == {};
    } else {
      var init, x := s[..|s| - 1], s[|s| - 1];
      assert s == init + [x];
      DistinctSnoc(init, x);
      DistinctCount(init);
      if x in init {
        assert Distinct(s) == Distinct(init);
        var k :| 0 <= k < |init| && init[k] == x;
        assert s[k] == s[|s| - 1];
      } else {
        assert x !in Distinct(init);
        NoDuplicatesSnoc(init, x);
      }
    }
  }

  /** Appending a new value keeps a list duplicate-free, and only such a list. */
  lemma NoDuplicatesSnoc(s: seq<string>, x: string)
    requires x !in s
    ensures NoDuplicates(s + [x]) <==> NoDuplicates(s)
  {
    var t := s + [x];
    if NoDuplicates(s) {
      forall i, j | 0 <= i < j < |t| ensures t[i] != t[j] {
        assert t[i] == s[i];
        if j < |s| { assert t[j] == s[j]; }
      }
    }
    if NoDuplicates(t) {
      forall i, j | 0 <= i < j < |s| ensures s[i] != s[j] {
        assert t[i] == s[i] && t[j] == s[j];
      }
    }
  }

  /** A non-empty list has one distinct value iff all its values are equal. */
  lemma OneDistinct(s: seq<string>)
    requires s != []
    ensures |Distinct(s)| == 1 <==> AllSame(s)
  {
    if AllSame(s) {
      assert Distinct(s) == {s[0]};
    } else {
      var k :| 0 <= k < |s| && s[k] != s[0];
      assert {s[0], s[k]} <= Distinct(s);
      assert |{s[0], s[k]}| == 2;
      SubsetCard({s[0], s[k]}, Distinct(s));
    }
  }

  lemma SubsetCard(a: set<string>, b: set<string>)
    requires a <= b
    ensures |a| <= |b|
  {
    assert b == a + (b - a);
  }

  /**
   * The diversity table: 0 for no values, 30 for one, 40 when all are equal,
   * 70 when all are distinct, 90 otherwise.
   */
  lemma DiversityScoreSpec(values: seq<string>)
    ensures values == [] ==> DiversityScore(values) == 0
    ensures |values| == 1 ==> DiversityScore(values) == 30
    ensures |values| >= 2 && AllSame(values) ==> DiversityScore(values) == 40
    ensures |values| >= 2 && NoDuplicates(values) ==> DiversityScore(values) == 70
    ensures |values| >= 2 && !AllSame(values) && !NoDuplicates(values) ==> DiversityScore(values) == 90
  {
    if |values| >= 2 {
      DistinctCount(values);
      OneDistinct(values);
    }
  }

  /* -------------------------------------------------------------- penalty */

  /** `_get_small_team_penalty_factor`: 0.2, 0.35, 0.4 and 0.85 for teams of one to four, 1.0 otherwise. */
  function PenaltyFactor(teamSize: int): (r: real)
    ensures 0.0 < r <= 1.0
    ensures r == 1.0 <==> !(1 <= teamSize <= 4)
  {
    if teamSize == 1 then 0.2
    else if teamSize == 2 then 0.35
    else if teamSize == 3 then 0.4
    else if teamSize == 4 then 0.85
    else 1.0
  }

  /** Among non-empty teams the penalty eases as the team grows, and is gone from five members on. */
  lemma PenaltyIncreasing(a: int, b: int)
    requires 1 <= a < b
    ensures PenaltyFactor(a) <= PenaltyFactor(b)
    ensures b <= 5 ==> PenaltyFactor(a) < PenaltyFactor(b)
  {
  }

  /* ----------------------------------------------------------- leadership */

  /** The score of a leader ratio, the bands nested around 0.2–0.4. */
  function LeaderBand(ratio: real): (score: int)
    ensures score == 100 || score == 80 || score == 60 || score == 30
    ensures score == 100 <==> 0.2 <= ratio <= 0.4
    ensures score >= 80 <==> 0.1 <= ratio <= 0.5
    ensures score >= 60 <==> 0.05 <= ratio <= 0.6
  {
    if 0.2 <= ratio <= 0.4 then 100
    else if 0.1 <= ratio <= 0.5 then 80
    else if 0.05 <= ratio <= 0.6 then 60
    else 30
  }

  predicate IsLeader(m: Member) {
    m.tendencyType == "LEADER"
  }

  /** How many members are `LEADER`s. */
  function LeaderCount(team: seq<Member>): (n: nat)
    ensures n <= |team|
  {
    if team == [] then 0 else LeaderCount(team[..|team| - 1]) + if IsLeader(team[|team| - 1]) then 1 else 0
  }

  /** `leader_count / total_members`, and 0 for an empty team. */
  function LeaderRatio(team: seq<Member>): (r: real)
    ensures 0.0 <= r <= 1.0
  {
    if |team| > 0 then LeaderCount(team) as real / |team| as real else 0.0
  }

  /** `_calculate_leadership_distribution`. */
  function LeadershipScore(team: seq<Member>): real {
    LeaderBand(LeaderRatio(team)) as real * PenaltyFactor(|team|)
  }

  /** `_calculate_leadership_distribution`: the counting loop, then the band and the penalty. */
  method LeadershipDistribution(team: seq<Member>) returns (score: real)
    ensures score == LeadershipScore(team)
  {
    var leaderCount := CountLeaders(team);
    var total := |team|;
    var ratio := if total > 0 then leaderCount as real / total as real else 0.0;
    score := LeaderBand(ratio) as real * PenaltyFactor(total);
  }

  /** The `leader_count += 1` loop. */
  method CountLeaders(team: seq<Member>) returns (leaderCount: nat)
    ensures leaderCount == LeaderCount(team)
  {
    leaderCount := 0;
    for i := 0 to |team|
      invariant leaderCount == LeaderCount(team[..i])
    {
      assert team[..i + 1][..i] == team[..i];
      if team[i].tendencyType == "LEADER" {
        leaderCount := leaderCount + 1;
      }
    }
    assert team[..|team|] == team;
  }

  /** A team without leaders, the empty team included, is in the lowest band. */
  lemma NoLeaders(team: seq<Member>)
    requires forall k :: 0 <= k < |team| ==> !IsLeader(team[k])
    ensures LeadershipScore(team) == 30.0 * PenaltyFactor(|team|)
  {
    ZeroLeaders(team);
  }

  lemma {:induction false} ZeroLeaders(team: seq<Member>)
    requires forall k :: 0 <= k < |team| ==> !IsLeader(team[k])
    ensures LeaderCount(team) == 0
  {
    if team != [] {
      var init := team[..|team| - 1];
      assert forall k :: 0 <= k < |init| ==> init[k] == team[k];
      ZeroLeaders(init);
    }
  }

  /** In a team of five, one or two leaders score the full 100: the band's ends are inclusive. */
  lemma FiveWithFewLeaders(team: seq<Member>)
    requires |team| == 5 && 1 <= LeaderCount(team) <= 2
    ensures LeadershipScore(team) == 100.0
  {
  }

  /* ----------------------------------------------------------- experience */

  /**
   * One stripped entry of an experience string: `None` when it has no `:`,
   * splits into other than two parts, or either part is not an integer.
   */
  function ParseEntry(entry: string): (r: Option<(int, int)>)
    ensures r.Some? ==> ':' in entry
  {
    if ':' !in entry then None
    else
      var parts := Split(entry, ':');
      if |parts| != 2 then None
      else
        var filterId, awardStatus := ParseInt(Strip(parts[0])), ParseInt(Strip(parts[1]));
        if filterId.Some? && awardStatus.Some? then Some((filterId.value, awardStatus.value)) else None
  }

  /** The well-formed `(filter_id, award_status)` pairs of the entries, in order. */
  function Pairs(entries: seq<string>): seq<(int, int)> {
    if entries == [] then []
    else
      var last := ParseEntry(Strip(entries[|entries| - 1]));
      Pairs(entries[..|entries| - 1]) + if last.Some? then [last.value] else []
  }

  /** The pairs an experience string holds: its `,`-separated entries, stripped and parsed. */
  function ExperiencePairs(experience: string): seq<(int, int)> {
    Pairs(Split(experience, ','))
  }

  /** The score of one pair: 100 for an award in the contest's field, 50 for taking part, none for another field. */
  function PairScore(pair: (int, int), contestId: int): (r: Option<int>)
    ensures r.Some? <==> pair.0 == contestId
    ensures r.Some? ==> r.value == if pair.1 == 1 then 100 else 50
  {
    if pair.0 == contestId then Some(if pair.1 == 1 then 100 else 50) else None
  }

  /** The scores of the pairs in the contest's field, in order. */
  function Scores(pairs: seq<(int, int)>, contestId: int): (r: seq<int>)
    ensures forall k :: 0 <= k < |r| ==> r[k] == 50 || r[k] == 100
    ensures |r| <= |pairs|
  {
    if pairs == [] then []
    else
      var last := PairScore(pairs[|pairs| - 1], contestId);
      Scores(pairs[..|pairs| - 1], contestId) + if last.Some? then [last.value] else []
  }

  /** `experiences` in `_calculate_experience_relevance` for one member. */
  function ExperienceScores(experience: string, contestId: int): seq<int> {
    Scores(ExperiencePairs(experience), contestId)
  }

  /** The scores of consecutive runs of pairs are those of each run, in order. */
  lemma {:induction false} ScoresAppend(a: seq<(int, int)>, b: seq<(int, int)>, contestId: int)
    ensures Scores(a + b, contestId) == Scores(a, contestId) + Scores(b, contestId)
    decreases |b|
  {
    if b == [] {
      assert a + b == a;
    } else {
      var init := b[..|b| - 1];
      assert (a + b)[..|a + b| - 1] == a + init;
      ScoresAppend(a, init, contestId);
    }
  }

  /** Pairs of other fields contribute nothing. */
  lemma {:induction false} ScoresOfOtherFields(pairs: seq<(int, int)>, contestId: int)
    requires forall k :: 0 <= k < |pairs| ==> pairs[k].0 != contestId
    ensures Scores(pairs, contestId) == []
  {
    if pairs != [] {
      var init := pairs[..|pairs| - 1];
      assert forall k :: 0 <= k < |init| ==> init[k] == pairs[k];
      ScoresOfOtherFields(init, contestId);
    }
  }

  /** One more entry adds its pair, if it has one. */
  lemma PairsSnoc(entries: seq<string>, e: string)
    ensures var p := ParseEntry(Strip(e));
            Pairs(entries + [e]) == Pairs(entries) + if p.Some? then [p.value] else []
  {
    assert (entries + [e])[..|entries|] == entries;
  }

  /** An entry without `:` adds nothing, wherever it stands. */
  lemma EntryWithoutColon(entries: seq<string>, e: string)
    requires ':' !in Strip(e)
    ensures Pairs(entries + [e]) == Pairs(entries)
  {
    assert (entries + [e])[..|entries|] == entries;
  }

  /** An entry with a second `:` adds nothing. */
  lemma EntryWithTwoColons(a: string, b: string, c: string)
    requires ':' !in a && ':' !in b
    ensures ParseEntry(a + ":" + b + ":" + c) == None
  {
    var e := a + ":" + b + ":" + c;
    assert e == a + [':'] + (b + [':'] + c);
    SplitAfterPiece(a, ':', b + [':'] + c);
    SplitAfterPiece(b, ':', c);
    assert e[|a|] == ':';
  }

  /** An entry `a:b` with one colon parses to its two stripped integers, if both are. */
  lemma EntryOfParts(a: string, b: string)
    requires ':' !in a && ':' !in b
    ensures var x, y := ParseInt(Strip(a)), ParseInt(Strip(b));
            ParseEntry(a + ":" + b) == if x.Some? && y.Some? then Some((x.value, y.value)) else None
  {
    var e := a + ":" + b;
    assert e == a + [':'] + b && e[|a|] == ':';
    SplitAfterPiece(a, ':', b);
    SplitNoSeparator(b, ':');
  }

  /** An entry whose two parts are not both integers adds nothing. */
  lemma EntryNotInteger(a: string, b: string)
    requires ':' !in a && ':' !in b
    requires ParseInt(Strip(a)).None? || ParseInt(Strip(b)).None?
    ensures ParseEntry(a + ":" + b) == None
  {
    EntryOfParts(a, b);
  }

  /** `str(filter_id) + ":" + str(award_status)` parses back to the pair. */
  lemma WellFormedEntry(filterId: int, awardStatus: int)
    ensures ParseEntry(IntToString(filterId) + ":" + IntToString(awardStatus)) == Some((filterId, awardStatus))
  {
    var a, b := IntToString(filterId), IntToString(awardStatus);
    assert ':' !in a && ':' !in b by {
      assert forall k :: 0 <= k < |a| ==> a[k] != ':';
      assert forall k :: 0 <= k < |b| ==> b[k] != ':';
    }
    EntryOfParts(a, b);
    IntegerTextTrimmed(filterId);
    IntegerTextTrimmed(awardStatus);
    StripTrimmed(a);
    StripTrimmed(b);
    IntToStringRoundTrip(filterId);
    IntToStringRoundTrip(awardStatus);
  }

  /** `str(i)` has no surrounding whitespace. */
  lemma IntegerTextTrimmed(i: int)
    ensures Trimmed(IntToString(i))
  {
    var t := IntToString(i);
    assert !IsSpace(t[0]) && !IsSpace(t[|t| - 1]);
  }

  /** `_calculate_experience_relevance`'s parsing loop for one member. */
  method ParseExperiences(experience: string, contestId: int) returns (experiences: seq<int>)
    ensures experiences == ExperienceScores(experience, contestId)
  {
    experiences := [];
    var entries := Split(experience, ',');
    for i := 0 to |entries|
      invariant experiences == Scores(Pairs(entries[..i]), contestId)
    {
      var parsed := ParseEntry(Strip(entries[i]));
      EntryStep(entries, i, contestId);
      if parsed.Some? && parsed.value.0 == contestId {
        if parsed.value.1 == 1 {
          experiences := experiences + [100];
        } else {
          experiences := experiences + [50];
        }
      }
    }
    assert entries[..|entries|] == entries;
  }

  /** What one more entry adds to the scores. */
  lemma EntryStep(entries: seq<string>, i: nat, contestId: int)
    requires i < |entries|
    ensures var p := ParseEntry(Strip(entries[i]));
            Scores(Pairs(entries[..i + 1]), contestId)
            == Scores(Pairs(entries[..i]), contestId) + if p.Some? && p.value.0 == contestId then [if p.value.1 == 1 then 100 else 50] else []
  {
    assert entries[..i + 1][..i] == entries[..i];
    var p := ParseEntry(Strip(entries[i]));
    var before := Pairs(entries[..i]);
    if p.Some? {
      assert Pairs(entries[..i + 1]) == before + [p.value];
      assert (before + [p.value])[..|before|] == before;
    } else {
      assert Pairs(entries[..i + 1]) == before;
    }
  }

  /** The sum of a list of scores. */
  function Sum(xs: seq<int>): int {
    if xs == [] then 0 else Sum(xs[..|xs| - 1]) + xs[|xs| - 1]
  }

  /** `np.mean(experiences) if experiences else 0`. */
  function MeanScore(xs: seq<int>): real {
    if xs == [] then 0.0 else Sum(xs) as real / |xs| as real
  }

  lemma {:induction false} SumBounds(xs: seq<int>)
    requires forall k :: 0 <= k < |xs| ==> 50 <= xs[k] <= 100
    ensures 50 * |xs| <= Sum(xs) <= 100 * |xs|
  {
    if xs != [] {
      var init := xs[..|xs| - 1];
      assert forall k :: 0 <= k < |init| ==> init[k] == xs[k];
      SumBounds(init);
    }
  }

  lemma MeanBounds(total: real, n: real, lo: real, hi: real)
    requires n > 0.0 && lo * n <= total <= hi * n
    ensures lo <= total / n <= hi
  {
    assert (total / n) * n == total;
  }

  /** A member's experience score is 0 without a matching entry and between 50 and 100 with one. */
  lemma MemberScoreBounds(experience: string, contestId: int)
    ensures var xs := ExperienceScores(experience, contestId);
            var m := MeanScore(xs);
            (xs == [] ==> m == 0.0) && (xs != [] ==> 50.0 <= m <= 100.0)
  {
    var xs := ExperienceScores(experience, contestId);
    if xs != [] {
      SumBounds(xs);
      MeanBounds(Sum(xs) as real, |xs| as real, 50.0, 100.0);
    }
  }

  /* ---------------------------------------------------------- team vector */

  /** `self.contest_map`. */
  function ContestName(contestId: int): (r: Option<string>)
    ensures r.Some? <==> 1 <= contestId <= 6
  {
    if contestId == 1 then Some("웹/앱")
    else if contestId == 2 then Some("AI/데이터 사이언스")
    else if contestId == 3 then Some("아이디어/기획")
    else if contestId == 4 then Some("IoT/임베디드")
    else if contestId == 5 then Some("게임")
    else if contestId == 6 then Some("정보보안/블록체인")
    else None
  }

  /** The two `ValueError`s of `create_team_vector`. */
  datatype VectorError = MatricesNotLoaded | InvalidContestId(contestId: int)

  /** The names of the eight features. */
  const FeatureNames: set<string> := {
    "role_skill_match_score", "contest_skill_relevance_score", "contest_role_relevance_score",
    "experience_relevance_score", "tendency_alignment_score", "leadership_distribution_score",
    "style_diversity_score", "team_size_factor"
  }

  /**
   * The three matrix scores of a team (`_calculate_role_skill_match` and the two
   * contest relevances), which average the loaded matrices' entries.
   */
  datatype MatrixScores = MatrixScores(roleSkill: real, contestSkill: real, contestRole: real)

  /** The members' mean experience scores, added up. */
  function ExperienceTotal(team: seq<Member>, contestId: int): real {
    if team == [] then 0.0
    else ExperienceTotal(team[..|team| - 1], contestId) + MeanScore(ExperienceScores(team[|team| - 1].experience, contestId))
  }

  /** The members' mean scores, averaged: 0 for an empty team. */
  function AverageExperience(team: seq<Member>, contestId: int): real {
    if team == [] then 0.0 else ExperienceTotal(team, contestId) / |team| as real
  }

  /** `_calculate_experience_relevance`: the members' mean scores, averaged, times the penalty. */
  function ExperienceRelevance(team: seq<Member>, contestId: int): real {
    AverageExperience(team, contestId) * PenaltyFactor(|team|)
  }

  lemma {:induction false} ExperienceTotalBounds(team: seq<Member>, contestId: int)
    ensures 0.0 <= ExperienceTotal(team, contestId) <= 100.0 * |team| as real
  {
    if team != [] {
      ExperienceTotalBounds(team[..|team| - 1], contestId);
      MemberScoreBounds(team[|team| - 1].experience, contestId);
    }
  }

  /** The team's average experience score, before the penalty, lies between 0 and 100. */
  lemma AverageExperienceBounds(team: seq<Member>, contestId: int)
    ensures 0.0 <= AverageExperience(team, contestId) <= 100.0
  {
    if team != [] {
      var total, n := ExperienceTotal(team, contestId), |team| as real;
      assert 0.0 * n <= total <= 100.0 * n by {
        ExperienceTotalBounds(team, contestId);
      }
      MeanBounds(total, n, 0.0, 100.0);
    }
  }

  /** The trait columns the alignment and style scores read, member by member. */
  function TendencyTypes(team: seq<Member>): seq<string> {
    seq(|team|, k requires 0 <= k < |team| => team[k].tendencyType)
  }

  function Goals(team: seq<Member>): seq<string> {
    seq(|team|, k requires 0 <= k < |team| => team[k].goal)
  }

  function Times(team: seq<Member>): seq<string> {
    seq(|team|, k requires 0 <= k < |team| => team[k].time)
  }

  function Problems(team: seq<Member>): seq<string> {
    seq(|team|, k requires 0 <= k < |team| => team[k].problem)
  }

  /** `f"{goal}_{problem}"` for every member. */
  function Styles(team: seq<Member>): seq<string> {
    seq(|team|, k requires 0 <= k < |team| => team[k].goal + "_" + team[k].problem)
  }

  /** `_calculate_tendency_alignment`: the mean diversity of the four trait columns, times the penalty. */
  function TendencyAlignment(team: seq<Member>): real {
    var d := DiversityScore(TendencyTypes(team)) + DiversityScore(Goals(team)) + DiversityScore(Times(team)) + DiversityScore(Problems(team));
    d as real / 4.0 * PenaltyFactor(|team|)
  }

  /** `_calculate_style_diversity_score`: the diversity of `goal_problem`, times the penalty. */
  function StyleDiversity(team: seq<Member>): real {
    DiversityScore(Styles(team)) as real * PenaltyFactor(|team|)
  }

  /** Members that agree on every trait: each column's diversity is 40, and so is the style's, before the penalty. */
  lemma UniformTeamScores(team: seq<Member>)
    requires |team| >= 2
    requires forall k :: 0 <= k < |team| ==>
               team[k].tendencyType == team[0].tendencyType && team[k].goal == team[0].goal
               && team[k].time == team[0].time && team[k].problem == team[0].problem
    ensures TendencyAlignment(team) == 40.0 * PenaltyFactor(|team|)
    ensures StyleDiversity(team) == 40.0 * PenaltyFactor(|team|)
  {
    var types, goals, times, problems, styles := TendencyTypes(team), Goals(team), Times(team), Problems(team), Styles(team);
    assert AllSame(types) && AllSame(goals) && AllSame(times) && AllSame(problems) && AllSame(styles);
    DiversityScoreSpec(types);
    DiversityScoreSpec(goals);
    DiversityScoreSpec(times);
    DiversityScoreSpec(problems);
    DiversityScoreSpec(styles);
  }

  /** A one-member team scores 30 on every diversity, so 6 after its penalty of 0.2. */
  lemma SingleMemberScores(m: Member)
    ensures TendencyAlignment([m]) == 6.0 && StyleDiversity([m]) == 6.0 && LeadershipScore([m]) == 6.0
  {
  }

  /** The eight features of a team, unrounded. */
  function Features(team: seq<Member>, contestId: int, matrix: MatrixScores): map<string, real> {
    map[
      "role_skill_match_score" := matrix.roleSkill,
      "contest_skill_relevance_score" := matrix.contestSkill,
      "contest_role_relevance_score" := matrix.contestRole,
      "experience_relevance_score" := ExperienceRelevance(team, contestId),
      "tendency_alignment_score" := TendencyAlignment(team),
      "leadership_distribution_score" := LeadershipScore(team),
      "style_diversity_score" := StyleDiversity(team),
      "team_size_factor" := PenaltyFactor(|team|)
    ]
  }

  /**
   * `create_team_vector` before rounding: an error when a matrix is missing,
   * then when the contest id is not one of 1 to 6, otherwise the features.
   */
  function TeamVector(matricesLoaded: bool, team: seq<Member>, contestId: int, matrix: MatrixScores): (r: Result<map<string, real>, VectorError>)
    ensures !matricesLoaded ==> r == Err(MatricesNotLoaded)
    ensures matricesLoaded && !(1 <= contestId <= 6) ==> r == Err(InvalidContestId(contestId))
    ensures r.Ok? <==> matricesLoaded && 1 <= contestId <= 6
  {
    if !matricesLoaded then Err(MatricesNotLoaded)
    else if ContestName(contestId).None? then Err(InvalidContestId(contestId))
    else Ok(Features(team, contestId, matrix))
  }

  /** A vector has exactly the eight named features; the size factor is the penalty, the leadership score the band's. */
  lemma TeamVectorFeatures(matricesLoaded: bool, team: seq<Member>, contestId: int, matrix: MatrixScores)
    requires TeamVector(matricesLoaded, team, contestId, matrix).Ok?
    ensures var v := TeamVector(matricesLoaded, team, contestId, matrix).value;
            v.Keys == FeatureNames && v["team_size_factor"] == PenaltyFactor(|team|)
            && v["leadership_distribution_score"] == LeadershipScore(team)
            && v["experience_relevance_score"] == ExperienceRelevance(team, contestId)
  {
  }

  /** `[r.strip() for r in str(member.get('role', '')).split(',')]`. */
  function MemberNames(field: string): (r: seq<string>)
    ensures |r| >= 1
  {
    MapSeq(Strip, Split(field, ','))
  }

  /** So the `if not roles or not skills` guard never fires: an empty field gives one empty name. */
  lemma EmptyFieldOneBlankName()
    ensures MemberNames("") == [""]
  {
    SplitNoSeparator("", ',');
  }
}
