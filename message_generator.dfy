/**
 * `ml/message_generator.py` (`SynergyMessageGenerator`): the score level, the
 * contribution type, and `generate_messages`, which turns the good and bad
 * points of an explanation into a summary and a per-feature analysis.
 */
module MessageGenerator {
  import opened Text
  import Preprocessing

  /** A point of an explanation: its feature, value and contribution. */
  datatype Point = Point(feature: string, value: real, contribution: real)

  datatype Level = High | Medium | Low

  datatype Kind = Good | Bad

  /** The two messages of a feature. */
  datatype Messages = Messages(good: string, bad: string)

  /** `self.messages`. */
  const MessageTable: map<string, Messages> := map[
    "role_skill_match_score" := Messages("🎯 역할과 기술이 잘 맞아떨어집니다! 프로젝트 진행이 원활할 것입니다.",
                     "⚠️ 역할에 필요한 기술이 부족합니다. 기술 스택을 조금 더 보완하면 좋겠어요."),
    "contest_skill_relevance_score" := Messages("🏆 해당 공모전 카테고리에 필요한 기술을 모두 갖추고 있어요! 우승 가능성이 높습니다.",
                     "🚨 해당 공모전 카테고리에 필요한 기술이 부족합니다. 기술 스택을 보완해야 해요."),
    "contest_role_relevance_score" := Messages("👥 공모전 역할 구성이 적절합니다. 최적의 팀워크를 기대할 수 있습니다.",
                     "⚠️ 공모전에 필요한 역할이 부족합니다. 추가 팀원을 모집하거나 역할을 보완해보세요"),
    "experience_relevance_score" := Messages("🏅 카테고리와 유사한 공모전 경험이 충분해요. 유사한 공모전 경험이 있어 안정적인 진행이 가능해요.",
                     "💡 공모전 경험이 부족해요. 카테고리와 유사한 프로젝트 경험이 거의 없어 예상치 못한 어려움이 있을 수 있습니다."),
    "tendency_alignment_score" := Messages("💫 팀원들의 성향이 조화롭게 어우러져요! 서로를 보완하며 좋은 팀워크를 만들어낼 수 있어요.",
                     "⚠️ 팀원들의 성향 차이가 있어요. 정기적인 소통을 통해 서로를 이해해보세요."),
    "leadership_distribution_score" := Messages("👑 리더십 분배가 적절해요! 역할에 따른 리더십이 잘 분담되어 있어요.",
                     "🚨 리더십 역할을 재정의해야 해요. 각자의 강점을 살린 리더십을 발휘해보세요."),
    "style_diversity_score" := Messages("🎯 체계적 계획과 유연한 대응이 균형잡혀 있어요! 분석적 사고와 창의적 문제해결이 시너지를 낼 것입니다.",
                     "⚠️ 업무 스타일이 한쪽으로 치우쳐 있어요. 체계적인 분석과 유연한 창의성을 모두 활용해보세요."),
    "team_size_limitation" := Messages("👥 팀원 수가 적절합니다! 효율적인 의사소통과 협업이 가능할 것입니다.",
                     "⚠️ 팀원 수가 너무 적어요. 적절한 인원으로 재구성하는 것을 고려해보세요."),
    "team_size_factor" := Messages("👥 팀원 수가 적절합니다! 효율적인 의사소통과 협업이 가능할 것입니다.",
                     "⚠️ 팀원 수가 부족해요. 적절한 인원으로 재구성하는 것을 고려해보세요.")
  ]

  /**
   * Every feature of the team vector has messages; the table's only other
   * feature is `team_size_limitation`, which no vector holds.
   */
  lemma TableCoversVector()
    ensures Preprocessing.FeatureNames <= MessageTable.Keys
    ensures MessageTable.Keys - Preprocessing.FeatureNames == {"team_size_limitation"}
  {
  }

  /** Each feature's good and bad messages differ. */
  lemma GoodAndBadDiffer(feature: string)
    requires feature in MessageTable
    ensures MessageTable[feature].good != MessageTable[feature].bad
  {
  }

  /** `_get_score_level`. */
  function ScoreLevel(score: real): (l: Level)
    ensures l == High <==> score >= 80.0
    ensures l == Medium <==> 50.0 <= score < 80.0
    ensures l == Low <==> score < 50.0
  {
    if score >= 80.0 then High else if score >= 50.0 then Medium else Low
  }

  function LevelRank(l: Level): nat {
    match l
    case Low => 0
    case Medium => 1
    case High => 2
  }

  /** A higher score never has a lower level. */
  lemma ScoreLevelMonotone(a: real, b: real)
    requires a <= b
    ensures LevelRank(ScoreLevel(a)) <= LevelRank(ScoreLevel(b))
  {
  }

  /** `_get_contribution_type`: only a strictly positive contribution is good. */
  function ContributionType(contribution: real): (k: Kind)
    ensures k == Good <==> contribution > 0.0
  {
    if contribution > 0.0 then Good else Bad
  }

  /** An entry of the summary lists. */
  datatype Entry = Entry(feature: string, message: string, score: real, contribution: real)

  /** An entry of `detailed_analysis`. */
  datatype Analysis = Analysis(score: real, level: Level, kind: Kind, message: string)

  /** The result: the two summary lists and the per-feature analysis. */
  datatype Report = Report(goodPoints: seq<Entry>, badPoints: seq<Entry>, detailed: map<string, Analysis>)

  predicate Known(p: Point, table: map<string, Messages>) {
    p.feature in table
  }

  /** `contribution_type`: good iff the point equals one of the good points. */
  function KindOf(p: Point, good: seq<Point>): Kind {
    if p in good then Good else Bad
  }

  function MessageOf(p: Point, good: seq<Point>, table: map<string, Messages>): string
    requires Known(p, table)
  {
    var m := table[p.feature];
    if KindOf(p, good) == Good then m.good else m.bad
  }

  function EntryOf(p: Point, good: seq<Point>, table: map<string, Messages>): Entry
    requires Known(p, table)
  {
    Entry(p.feature, MessageOf(p, good, table), p.value, p.contribution)
  }

  function AnalysisOf(p: Point, good: seq<Point>, table: map<string, Messages>): Analysis
    requires Known(p, table)
  {
    Analysis(p.value, ScoreLevel(p.value), KindOf(p, good), MessageOf(p, good, table))
  }

  /** The report after one more point. */
  function Add(r: Report, p: Point, good: seq<Point>, table: map<string, Messages>): Report {
    if !Known(p, table) then r
    else
      var e := EntryOf(p, good, table);
      Report(if KindOf(p, good) == Good then r.goodPoints + [e] else r.goodPoints,
             if KindOf(p, good) == Bad then r.badPoints + [e] else r.badPoints,
             r.detailed[p.feature := AnalysisOf(p, good, table)])
  }

  /** The report of a run of points, in order, with `table` giving the messages of each feature. */
  function Process(points: seq<Point>, good: seq<Point>, table: map<string, Messages>): Report {
    if points == [] then Report([], [], map[])
    else Add(Process(points[..|points| - 1], good, table), points[|points| - 1], good, table)
  }

  /** `generate_messages` on the explanation's good and bad points. */
  function Generated(good: seq<Point>, bad: seq<Point>): Report {
    Process(good + bad, good, MessageTable)
  }

  /** `generate_messages`: the loop over the good points, then the bad ones. */
  method GenerateMessages(good: seq<Point>, bad: seq<Point>) returns (result: Report)
    ensures result == Generated(good, bad)
  {
    result := Report([], [], map[]);
    var allPoints := good + bad;
    for i := 0 to |allPoints|
      invariant result == Process(allPoints[..i], good, MessageTable)
    {
      assert allPoints[..i + 1][..i] == allPoints[..i];
      var point := allPoints[i];
      if point.feature !in MessageTable {
        continue;
      }
      var isGoodPoint := point in good;
      var contributionType := if isGoodPoint then Good else Bad;
      var message := if isGoodPoint then MessageTable[point.feature].good else MessageTable[point.feature].bad;
      var pointData := Entry(point.feature, message, point.value, point.contribution);
      if isGoodPoint {
        result := result.(goodPoints := result.goodPoints + [pointData]);
      } else {
        result := result.(badPoints := result.badPoints + [pointData]);
      }
      result := result.(detailed := result.detailed[point.feature := Analysis(point.value, ScoreLevel(point.value), contributionType, message)]);
    }
    assert allPoints[..|allPoints|] == allPoints;
  }

  function KnownFn(table: map<string, Messages>): Point -> bool { p => Known(p, table) }

  function GoodFn(good: seq<Point>, table: map<string, Messages>): Point -> bool { p => Known(p, table) && p in good }

  function BadFn(good: seq<Point>, table: map<string, Messages>): Point -> bool { p => Known(p, table) && p !in good }

  function EntryFn(good: seq<Point>, table: map<string, Messages>): Point -> Entry {
    p => if Known(p, table) then EntryOf(p, good, table) else Entry(p.feature, "", p.value, p.contribution)
  }

  /** Points whose feature has no messages leave no trace. */
  lemma {:induction false} UnknownSkipped(points: seq<Point>, good: seq<Point>, table: map<string, Messages>)
    ensures Process(points, good, table) == Process(Filter(points, KnownFn(table)), good, table)
  {
    if points != [] {
      var init, p := points[..|points| - 1], points[|points| - 1];
      UnknownSkipped(init, good, table);
      var f := Filter(init, KnownFn(table));
      if Known(p, table) {
        assert Filter(points, KnownFn(table)) == f + [p];
        assert (f + [p])[..|f|] == f;
        assert Process(f + [p], good, table) == Add(Process(f, good, table), p, good, table);
      } else {
        assert Filter(points, KnownFn(table)) == f;
      }
    }
  }

  /**
   * The summary lists keep input order: the good list holds the entries of the
   * known points equal to some good point, the bad list those of the others.
   */
  lemma {:induction false} SummaryOrder(points: seq<Point>, good: seq<Point>, table: map<string, Messages>)
    ensures Process(points, good, table).goodPoints == MapSeq(EntryFn(good, table), Filter(points, GoodFn(good, table)))
    ensures Process(points, good, table).badPoints == MapSeq(EntryFn(good, table), Filter(points, BadFn(good, table)))
  {
    if points != [] {
      var init, p := points[..|points| - 1], points[|points| - 1];
      SummaryOrder(init, good, table);
      var g, b := Filter(init, GoodFn(good, table)), Filter(init, BadFn(good, table));
      if Known(p, table) && p in good {
        assert Filter(points, GoodFn(good, table)) == g + [p];
        MapSeqAppend(EntryFn(good, table), g, [p]);
      } else if Known(p, table) {
        assert Filter(points, BadFn(good, table)) == b + [p];
        MapSeqAppend(EntryFn(good, table), b, [p]);
      }
    }
  }

  /** Every known point lands in exactly one of the two lists. */
  lemma {:induction false} SummaryCount(points: seq<Point>, good: seq<Point>, table: map<string, Messages>)
    ensures |Process(points, good, table).goodPoints| + |Process(points, good, table).badPoints| == |Filter(points, KnownFn(table))|
  {
    if points != [] {
      SummaryCount(points[..|points| - 1], good, table);
    }
  }

  lemma {:induction false} FilterNone(s: seq<Point>, keep: Point -> bool)
    requires forall k :: 0 <= k < |s| ==> !keep(s[k])
    ensures Filter(s, keep) == []
  {
    if s != [] {
      var init := s[..|s| - 1];
      assert forall k :: 0 <= k < |init| ==> init[k] == s[k];
      FilterNone(init, keep);
    }
  }

  /**
   * When no bad point equals a good one, the good list is the known good points
   * and the bad list the known bad points, each in input order.
   */
  lemma GoodPointsFirst(good: seq<Point>, bad: seq<Point>, table: map<string, Messages>)
    requires forall k :: 0 <= k < |bad| ==> bad[k] !in good
    ensures Process(good + bad, good, table).goodPoints == MapSeq(EntryFn(good, table), Filter(good, KnownFn(table)))
    ensures Process(good + bad, good, table).badPoints == MapSeq(EntryFn(good, table), Filter(bad, KnownFn(table)))
  {
    SummaryOrder(good + bad, good, table);
    FilterAppend(good, bad, GoodFn(good, table));
    FilterAppend(good, bad, BadFn(good, table));
    FilterAgree(good, GoodFn(good, table), KnownFn(table));
    FilterAgree(bad, BadFn(good, table), KnownFn(table));
    FilterNone(good, BadFn(good, table));
    FilterNone(bad, GoodFn(good, table));
    assert Filter(good, GoodFn(good, table)) + [] == Filter(good, GoodFn(good, table));
    assert [] + Filter(bad, BadFn(good, table)) == Filter(bad, BadFn(good, table));
  }

  /** `detailed_analysis` has one key per known feature of the points. */
  lemma {:induction false} DetailedKeys(points: seq<Point>, good: seq<Point>, table: map<string, Messages>)
    ensures Process(points, good, table).detailed.Keys == set k | 0 <= k < |points| && Known(points[k], table) :: points[k].feature
  {
    if points != [] {
      var init, p := points[..|points| - 1], points[|points| - 1];
      DetailedKeys(init, good, table);
      var keys := set k | 0 <= k < |points| && Known(points[k], table) :: points[k].feature;
      var keys0 := set k | 0 <= k < |init| && Known(init[k], table) :: init[k].feature;
      assert forall k :: 0 <= k < |init| ==> init[k] == points[k];
      if Known(p, table) {
        assert keys == keys0 + {p.feature};
      } else {
        assert keys == keys0;
      }
    }
  }

  /**
   * A feature's entry in `detailed_analysis` is that of its last point: typed
   * good iff the point is a good point, with that type's message.
   */
  lemma {:induction false} DetailedLast(points: seq<Point>, good: seq<Point>, table: map<string, Messages>, k: nat)
    requires k < |points| && Known(points[k], table)
    requires forall j :: k < j < |points| ==> points[j].feature != points[k].feature
    ensures points[k].feature in Process(points, good, table).detailed
    ensures Process(points, good, table).detailed[points[k].feature] == AnalysisOf(points[k], good, table)
  {
    var init, p := points[..|points| - 1], points[|points| - 1];
    if k < |points| - 1 {
      assert forall j :: k < j < |init| ==> init[j] == points[j];
      DetailedLast(init, good, table, k);
      assert p.feature != points[k].feature;
    }
  }
}
