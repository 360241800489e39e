/**
 * `routers/synergy.py`: how `analyze_synergy` turns a user into the applicant
 * record the synergy model reads — the role, skill and experience strings, the
 * profile tags mapped onto the four style fields, and the `"UNKNOWN"` default.
 */
module Synergy {
  import opened Wrappers
  import opened Text
  import opened Preprocessing

  /* ------------------------------------------------------------- the tags */

  /** The `mapping` dictionary of `map_tags_to_fields`, `None` for a field no tag set. */
  datatype TagMapping = TagMapping(tendencyType: Option<string>, goal: Option<string>, time: Option<string>, problem: Option<string>)

  const TendencyTags: seq<string> := ["LEADER", "SUPPORTER"]
  const GoalTags: seq<string> := ["QUALITY", "SCHEDULE"]
  const TimeTags: seq<string> := ["MORNING", "NIGHT"]
  const ProblemTags: seq<string> := ["ANALYTIC", "ADHOC"]

  /** The mapping after one more tag: the field whose pair holds the tag takes it. */
  function Assign(m: TagMapping, tag: string): TagMapping {
    if tag in TendencyTags then m.(tendencyType := Some(tag))
    else if tag in GoalTags then m.(goal := Some(tag))
    else if tag in TimeTags then m.(time := Some(tag))
    else if tag in ProblemTags then m.(problem := Some(tag))
    else m
  }

  /** The mapping of a run of tags, in order. */
  function Mapped(tags: seq<string>): TagMapping {
    if tags == [] then TagMapping(None, None, None, None)
    else Assign(Mapped(tags[..|tags| - 1]), tags[|tags| - 1])
  }

  /** `map_tags_to_fields`. */
  method MapTagsToFields(requiredTags: seq<string>) returns (mapping: TagMapping)
    ensures mapping == Mapped(requiredTags)
  {
    mapping := TagMapping(None, None, None, None);
    for i := 0 to |requiredTags|
      invariant mapping == Mapped(requiredTags[..i])
    {
      assert requiredTags[..i + 1][..i] == requiredTags[..i];
      var tag := requiredTags[i];
      if tag == "LEADER" || tag == "SUPPORTER" {
        mapping := mapping.(tendencyType := Some(tag));
      } else if tag == "QUALITY" || tag == "SCHEDULE" {
        mapping := mapping.(goal := Some(tag));
      } else if tag == "MORNING" || tag == "NIGHT" {
        mapping := mapping.(time := Some(tag));
      } else if tag == "ANALYTIC" || tag == "ADHOC" {
        mapping := mapping.(problem := Some(tag));
      }
    }
    assert requiredTags[..|requiredTags|] == requiredTags;
  }

  /** The last tag of `tags` that lies in `pair`, `None` iff there is none. */
  function LastIn(tags: seq<string>, pair: seq<string>): (r: Option<string>)
    ensures r.None? <==> forall k :: 0 <= k < |tags| ==> tags[k] !in pair
    ensures r.Some? ==> r.value in pair && r.value in tags
  {
    if tags == [] then None
    else if tags[|tags| - 1] in pair then Some(tags[|tags| - 1])
    else
      var init := tags[..|tags| - 1];
      assert forall k :: 0 <= k < |init| ==> init[k] == tags[k];
      LastIn(init, pair)
  }

  /** The tag `LastIn` finds is one that no later tag of the pair follows. */
  lemma {:induction false} LastInIsLast(tags: seq<string>, pair: seq<string>)
    requires LastIn(tags, pair).Some?
    ensures exists k :: 0 <= k < |tags| && tags[k] == LastIn(tags, pair).value
              && forall j :: k < j < |tags| ==> tags[j] !in pair
  {
    var n := |tags| - 1;
    if tags[n] !in pair {
      var init := tags[..n];
      LastInIsLast(init, pair);
      var k :| 0 <= k < |init| && init[k] == LastIn(init, pair).value && forall j :: k < j < |init| ==> init[j] !in pair;
      assert tags[k] == init[k];
      forall j | k < j < |tags|
        ensures tags[j] !in pair
      {
        if j < n {
          assert tags[j] == init[j];
        }
      }
    }
  }

  /** Each field holds the last tag of its pair, and stays `None` when no tag of the pair appears. */
  lemma {:induction false} MappedLastTags(tags: seq<string>)
    ensures Mapped(tags) == TagMapping(LastIn(tags, TendencyTags), LastIn(tags, GoalTags), LastIn(tags, TimeTags), LastIn(tags, ProblemTags))
  {
    if tags != [] {
      MappedLastTags(tags[..|tags| - 1]);
    }
  }

  /** A tag outside the four pairs changes nothing, wherever it stands. */
  lemma OtherTagIgnored(tags: seq<string>, tag: string)
    requires tag !in TendencyTags + GoalTags + TimeTags + ProblemTags
    ensures Mapped(tags + [tag]) == Mapped(tags)
  {
    assert (tags + [tag])[..|tags|] == tags;
  }

  /** `tag_mapping[...] or "UNKNOWN"`. */
  function OrUnknown(field: Option<string>): (r: string)
    ensures field.Some? && field.value != "" ==> r == field.value
    ensures field.None? ==> r == "UNKNOWN"
  {
    if field.Some? && field.value != "" then field.value else "UNKNOWN"
  }

  /* ---------------------------------------------------- the user strings */

  /** The role or skill string: the names in query order joined by `", "`, or `""` when there are none. */
  function NamesString(names: seq<string>): (r: string)
    ensures names == [] ==> r == ""
    ensures |names| == 1 ==> r == names[0]
  {
    if names != [] then Join(names, ", ") else ""
  }

  lemma CommaGlue()
    ensures ", " == [','] + " "
  {
  }

  /**
   * Splitting the joined names back on `,` and stripping each piece, as the
   * feature code does, recovers names that are trimmed and hold no `,`.
   */
  lemma NamesRoundTrip(names: seq<string>)
    requires names != []
    requires forall k :: 0 <= k < |names| ==> ',' !in names[k] && Trimmed(names[k])
    ensures MemberNames(NamesString(names)) == names
  {
    CommaGlue();
    SplitJoin(names, ',', " ");
    var pieces := Split(Join(names, ", "), ',');
    forall k | 0 <= k < |names|
      ensures Strip(pieces[k]) == names[k]
    {
      if k == 0 {
        StripTrimmed(names[0]);
      } else {
        StripSpacePrefix(names[k]);
        assert pieces[k] == [' '] + names[k];
      }
    }
  }

  /** A user with no roles or skills gets one blank name from the feature code. */
  lemma NoNamesOneBlank()
    ensures MemberNames(NamesString([])) == [""]
  {
    EmptyFieldOneBlankName();
  }

  /** One experience as `f"{filter_id}:{award_status}"`. */
  function ExperienceItem(pair: (int, int)): (r: string)
    ensures ',' !in r && Trimmed(r)
  {
    var a, b := IntToString(pair.0), IntToString(pair.1);
    IntegerTextTrimmed(pair.0);
    IntegerTextTrimmed(pair.1);
    assert forall k :: 0 <= k < |a| ==> a[k] != ',';
    assert forall k :: 0 <= k < |b| ==> b[k] != ',';
    var r := a + ":" + b;
    assert r[0] == a[0] && r[|r| - 1] == b[|b| - 1];
    r
  }

  /** `get_user_experience_string`: `""` with no experiences, otherwise the items joined by `", "`. */
  function ExperienceString(pairs: seq<(int, int)>): string {
    if pairs == [] then "" else Join(MapSeq(ExperienceItem, pairs), ", ")
  }

  /** `get_user_experience_string`'s loop over the user's experiences, in query order. */
  method UserExperienceString(experiences: seq<(int, int)>) returns (s: string)
    ensures s == ExperienceString(experiences)
  {
    if experiences == [] {
      return "";
    }
    var experienceParts: seq<string> := [];
    for i := 0 to |experiences|
      invariant experienceParts == MapSeq(ExperienceItem, experiences[..i])
    {
      experienceParts := experienceParts + [ExperienceItem(experiences[i])];
    }
    assert experiences[..|experiences|] == experiences;
    s := Join(experienceParts, ", ");
  }

  /** Entries that each parse to their pair give back the pairs. */
  lemma {:induction false} PairsOfEntries(entries: seq<string>, pairs: seq<(int, int)>)
    requires |entries| == |pairs|
    requires forall k :: 0 <= k < |entries| ==> ParseEntry(Strip(entries[k])) == Some(pairs[k])
    ensures Pairs(entries) == pairs
  {
    if entries != [] {
      var n := |entries| - 1;
      var init := entries[..n];
      assert forall k :: 0 <= k < n ==> init[k] == entries[k];
      PairsOfEntries(init, pairs[..n]);
      FrontLast(entries);
      PairsSnoc(init, entries[n]);
      FrontLast(pairs);
    }
  }

  /** The experience parser of the feature code recovers every pair of the experience string. */
  lemma ExperienceRoundTrip(pairs: seq<(int, int)>)
    ensures ExperiencePairs(ExperienceString(pairs)) == pairs
  {
    if pairs == [] {
      SplitNoSeparator("", ',');
      assert Split("", ',') == [""];
      assert Pairs([""]) == Pairs([]) + [];
    } else {
      var items := MapSeq(ExperienceItem, pairs);
      CommaGlue();
      SplitJoin(items, ',', " ");
      var pieces := Split(Join(items, ", "), ',');
      forall k | 0 <= k < |pieces|
        ensures ParseEntry(Strip(pieces[k])) == Some(pairs[k])
      {
        if k == 0 {
          StripTrimmed(items[0]);
        } else {
          StripSpacePrefix(items[k]);
          assert pieces[k] == [' '] + items[k];
        }
        WellFormedEntry(pairs[k].0, pairs[k].1);
      }
      PairsOfEntries(pieces, pairs);
    }
  }

  /** So the member's experience scores are those of the user's experiences in the contest's field. */
  lemma ExperienceScoresOfUser(pairs: seq<(int, int)>, contestId: int)
    ensures ExperienceScores(ExperienceString(pairs), contestId) == Scores(pairs, contestId)
  {
    ExperienceRoundTrip(pairs);
  }

  /* ------------------------------------------------------ the applicant */

  /**
   * The applicant record `analyze_synergy` builds for a user; `requiredTags` is
   * the `required_tags_json` of the user's profile rule, `None` when the user has
   * no traits or the rule is missing.
   */
  function Applicant(roles: seq<string>, skills: seq<string>, experiences: seq<(int, int)>, requiredTags: Option<seq<string>>): Member {
    var m := Mapped(if requiredTags.Some? then requiredTags.value else []);
    Member(NamesString(roles), NamesString(skills), ExperienceString(experiences),
           OrUnknown(m.tendencyType), OrUnknown(m.goal), OrUnknown(m.time), OrUnknown(m.problem))
  }

  /** An applicant's style fields: the last tag of each pair, `"UNKNOWN"` when there is none. */
  lemma ApplicantFields(roles: seq<string>, skills: seq<string>, experiences: seq<(int, int)>, requiredTags: Option<seq<string>>)
    ensures var tags := if requiredTags.Some? then requiredTags.value else [];
            var a := Applicant(roles, skills, experiences, requiredTags);
            a.tendencyType == OrUnknown(LastIn(tags, TendencyTags))
            && a.goal == OrUnknown(LastIn(tags, GoalTags))
            && a.time == OrUnknown(LastIn(tags, TimeTags))
            && a.problem == OrUnknown(LastIn(tags, ProblemTags))
            && ExperiencePairs(a.experience) == experiences
  {
    MappedLastTags(if requiredTags.Some? then requiredTags.value else []);
    ExperienceRoundTrip(experiences);
  }

  /** An applicant counts as a leader iff the last tendency tag of the profile is `LEADER`. */
  lemma ApplicantLeader(roles: seq<string>, skills: seq<string>, experiences: seq<(int, int)>, requiredTags: Option<seq<string>>)
    ensures var tags := if requiredTags.Some? then requiredTags.value else [];
            IsLeader(Applicant(roles, skills, experiences, requiredTags)) <==> LastIn(tags, TendencyTags) == Some("LEADER")
  {
    var tags := if requiredTags.Some? then requiredTags.value else [];
    MappedLastTags(tags);
    var last := LastIn(tags, TendencyTags);
    if last.Some? {
      assert last.value == "LEADER" || last.value == "SUPPORTER";
    }
  }
}
