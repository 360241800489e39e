/**
 * The multi-step sign-up of `routers/registration.py`: an in-memory map from a
 * user id to its registration session, advanced by steps 1 to 4 and consumed by
 * `complete_registration`. The database becomes the sets of known user ids,
 * e-mails, skill and role ids and names, and the list of committed accounts;
 * e-mail codes go through the store of `utils/email_auth.py`.
 */
module Registration {
  import opened Wrappers
  import opened Text
  import opened Personality
  import opened EmailAuth

  /** `RegistrationStep1`. */
  datatype Step1Request = Step1Request(userId: string, name: string, email: string, password: string, verificationCode: string)

  /** `RegistrationStep2`, and the step-2 data a session keeps (with the custom lists cleaned). */
  datatype Step2Choice = Step2Choice(skillIds: seq<int>, roleIds: seq<int>, customSkills: seq<string>, customRoles: seq<string>)

  /** `ExperienceInput`; the award date is kept as the text it was given in. */
  datatype ExperienceInput = ExperienceInput(contestName: string, awardDate: string, hostOrganization: Option<string>,
                                             awardName: string, description: Option<string>, filterId: int)

  /** An entry of `registration_sessions`. */
  datatype Session = Session(step1: Step1Request, step2: Option<Step2Choice>, step3: Option<seq<ExperienceInput>>,
                             step4: Option<seq<Answer>>, currentStep: int, completedSteps: seq<int>, createdAt: int)

  /** The `StepResponse` of a successful step (its message text aside). */
  datatype StepResponse = StepResponse(currentStep: int, nextStep: Option<int>, isCompleted: bool)

  /** `RegistrationStatus`. */
  datatype RegistrationStatus = RegistrationStatus(userId: string, currentStep: int, isCompleted: bool, completedSteps: seq<int>)

  /** The reasons a step is refused. */
  datatype RegError =
    | UserIdTaken | EmailTaken | InvalidCode
    | Step1First | NoSkills | NoRoles | InvalidSkillId(skillId: int) | InvalidRoleId(roleId: int)
    | SkillExists(skillName: string) | RoleExists(roleName: string) | NoValidSkills | NoValidRoles
    | PreviousStepsFirst | WrongAnswerCount | AllStepsFirst | TestFailed(testError: TestError)
    | SessionNotFound | InternalError

  /**
   * The HTTP status of a refusal: 404 for an unknown session in the status
   * query, 500 for an exception caught by `complete_registration`, 400 otherwise.
   */
  function StatusCode(e: RegError): (code: int)
    ensures code == 404 <==> e == SessionNotFound
    ensures code == 500 <==> e == InternalError
    ensures code == 400 || code == 404 || code == 500
  {
    if e == SessionNotFound then 404 else if e == InternalError then 500 else 400
  }

  /**
   * The skill and role tables, with the next value of each table's
   * autoincrement primary key.
   */
  datatype Catalog = Catalog(skillIds: set<int>, skillNames: set<string>, roleIds: set<int>, roleNames: set<string>,
                             nextSkillId: int, nextRoleId: int)

  /** Every stored id lies below its table's next autoincrement value. */
  predicate CatalogOk(c: Catalog) {
    (forall i :: i in c.skillIds ==> i < c.nextSkillId) && (forall i :: i in c.roleIds ==> i < c.nextRoleId)
  }

  /** The `n` ids an autoincrement key hands out from `start`. */
  function IdRange(start: int, n: nat): set<int> {
    if n == 0 then {} else IdRange(start, n - 1) + {start + n - 1}
  }

  /** The ids handed out are exactly `start` up to, not including, `start + n`. */
  lemma {:induction false} IdRangeMembers(start: int, n: nat)
    ensures forall i :: i in IdRange(start, n) <==> start <= i < start + n
  {
    if n > 0 {
      IdRangeMembers(start, n - 1);
    }
  }

  /** A committed sign-up: the user, its links and its personality profile. */
  datatype Account = Account(userId: string, name: string, email: string,
                             customSkills: seq<string>, skillIds: seq<int>, customRoles: seq<string>, roleIds: seq<int>,
                             experiences: seq<ExperienceInput>, profileCode: string, traits: map<string, string>)

  /* ------------------------------------------------------------- sessions */

  function Last(s: seq<int>): int
    requires s != []
  {
    s[|s| - 1]
  }

  /**
   * What every session satisfies: it belongs to its step-1 user, its current step
   * is 1 to 4 with the data of every step up to it present, and its completed
   * steps start with 1 and end with the current step.
   */
  predicate SessionOk(userId: string, s: Session) {
    s.step1.userId == userId && 1 <= s.currentStep <= 4
    && (s.currentStep >= 2 ==> s.step2.Some?)
    && (s.currentStep >= 3 ==> s.step3.Some?)
    && (s.currentStep >= 4 ==> s.step4.Some?)
    && s.completedSteps != [] && s.completedSteps[0] == 1 && Last(s.completedSteps) == s.currentStep
  }

  predicate SessionsOk(sessions: map<string, Session>) {
    forall u :: u in sessions ==> SessionOk(u, sessions[u])
  }

  /** The session step 1 stores. */
  function NewSession(req: Step1Request, now: int): Session {
    Session(req, None, None, None, 1, [1], now)
  }

  /** Step 1 once its user id and e-mail were found free: `codeOk` is the outcome of `verify_email_code`. */
  function Step1(sessions: map<string, Session>, codeOk: bool, req: Step1Request, now: int): (map<string, Session>, Result<StepResponse, RegError>) {
    if !codeOk then (sessions, Err(InvalidCode))
    else (sessions[req.userId := NewSession(req, now)], Ok(StepResponse(1, Some(2), false)))
  }

  /** A successful step 1 replaces any session of the user by a fresh one at step 1. */
  lemma Step1Overwrites(sessions: map<string, Session>, req: Step1Request, now: int)
    ensures var s := Step1(sessions, true, req, now).0[req.userId];
            s.currentStep == 1 && s.completedSteps == [1] && s.step2.None? && s.step3.None? && s.step4.None?
    ensures forall u :: u in sessions && u != req.userId ==> Step1(sessions, true, req, now).0[u] == sessions[u]
  {
  }

  /* ---------------------------------------------------- step-2 validation */

  /** How many of the images of `xs` under `f` are non-empty. */
  function CountNonEmpty<A>(xs: seq<A>, f: A -> string): nat {
    if xs == [] then 0
    else CountNonEmpty(xs[..|xs| - 1], f) + (if f(xs[|xs| - 1]) != "" then 1 else 0)
  }

  /** The non-empty images of `xs` under `f`, in order. */
  function NonEmptyImages<A>(xs: seq<A>, f: A -> string): seq<string> {
    if xs == [] then []
    else
      var n := f(xs[|xs| - 1]);
      NonEmptyImages(xs[..|xs| - 1], f) + (if n != "" then [n] else [])
  }

  /** `len([s for s in names if s.strip()])`. */
  function NonBlankCount(names: seq<string>): nat {
    CountNonEmpty(names, Strip)
  }

  /** The stripped non-blank names, in order: what the custom-name loops collect. */
  function StripNonBlank(names: seq<string>): seq<string> {
    NonEmptyImages(names, Strip)
  }

  lemma {:induction false} NonEmptyImagesLength<A>(xs: seq<A>, f: A -> string)
    ensures |NonEmptyImages(xs, f)| == CountNonEmpty(xs, f)
  {
    if xs != [] {
      NonEmptyImagesLength(xs[..|xs| - 1], f);
    }
  }

  lemma {:induction false} NonEmptyImagesAreImages<A>(xs: seq<A>, f: A -> string)
    ensures forall i :: 0 <= i < |NonEmptyImages(xs, f)| ==>
              NonEmptyImages(xs, f)[i] != "" && exists j :: 0 <= j < |xs| && NonEmptyImages(xs, f)[i] == f(xs[j])
  {
    if xs != [] {
      var init := xs[..|xs| - 1];
      NonEmptyImagesAreImages(init, f);
      var r, ri := NonEmptyImages(xs, f), NonEmptyImages(init, f);
      forall i | 0 <= i < |r|
        ensures r[i] != "" && exists j :: 0 <= j < |xs| && r[i] == f(xs[j])
      {
        if i < |ri| {
          assert r[i] == ri[i];
          var j :| 0 <= j < |init| && ri[i] == f(init[j]);
          assert init[j] == xs[j];
        } else {
          assert r[i] == f(xs[|xs| - 1]);
        }
      }
    }
  }

  lemma {:induction false} NonEmptyImagesCover<A>(xs: seq<A>, f: A -> string)
    ensures forall i :: 0 <= i < |xs| && f(xs[i]) != "" ==> f(xs[i]) in NonEmptyImages(xs, f)
  {
    if xs != [] {
      var init := xs[..|xs| - 1];
      NonEmptyImagesCover(init, f);
      assert forall j :: 0 <= j < |init| ==> init[j] == xs[j];
    }
  }

  /** The collected names are exactly as many as the non-blank inputs. */
  lemma StripNonBlankLength(names: seq<string>)
    ensures |StripNonBlank(names)| == NonBlankCount(names)
  {
    NonEmptyImagesLength(names, Strip);
  }

  /** Each collected name is non-empty and stripped. */
  lemma StripNonBlankClean(names: seq<string>)
    ensures forall i :: 0 <= i < |StripNonBlank(names)| ==> StripNonBlank(names)[i] != "" && Trimmed(StripNonBlank(names)[i])
  {
    NonEmptyImagesAreImages(names, Strip);
  }

  /** Each non-blank input is collected, stripped. */
  lemma StripNonBlankCovers(names: seq<string>)
    ensures forall i :: 0 <= i < |names| && Strip(names[i]) != "" ==> Strip(names[i]) in StripNonBlank(names)
  {
    NonEmptyImagesCover(names, Strip);
  }

  /** The index of the first element of `s` that is `bad`, if any. */
  function FirstWhere<T>(s: seq<T>, bad: T -> bool): (k: Option<nat>)
    ensures k.Some? ==> k.value < |s|
  {
    if s == [] then None
    else
      var p := FirstWhere(s[..|s| - 1], bad);
      if p.Some? then p else if bad(s[|s| - 1]) then Some(|s| - 1) else None
  }

  lemma {:induction false} FirstWhereSpec<T>(s: seq<T>, bad: T -> bool)
    ensures FirstWhere(s, bad).None? <==> forall j :: 0 <= j < |s| ==> !bad(s[j])
    ensures FirstWhere(s, bad).Some? ==>
              var k := FirstWhere(s, bad).value;
              bad(s[k]) && forall j :: 0 <= j < k ==> !bad(s[j])
  {
    if s != [] {
      var init := s[..|s| - 1];
      FirstWhereSpec(init, bad);
      assert forall j :: 0 <= j < |init| ==> init[j] == s[j];
    }
  }

  /** A hit on a prefix is the hit of the whole sequence. */
  lemma {:induction false} FirstWherePrefix<T>(s: seq<T>, bad: T -> bool, n: nat)
    requires n <= |s| && FirstWhere(s[..n], bad).Some?
    ensures FirstWhere(s, bad) == FirstWhere(s[..n], bad)
    decreases |s| - n
  {
    if n < |s| {
      assert s[..n + 1][..n] == s[..n];
      FirstWherePrefix(s, bad, n + 1);
    } else {
      assert s[..n] == s;
    }
  }

  /** An id that is not in the table. */
  function Unknown(present: set<int>): int -> bool {
    id => id !in present
  }

  /** A custom name whose stripped form is non-blank and already a known name. */
  predicate Taken(name: string, existing: set<string>) {
    Strip(name) != "" && Strip(name) in existing
  }

  function TakenIn(existing: set<string>): string -> bool {
    name => Taken(name, existing)
  }

  /** The checks of `complete_step2` after the session check, in their order; the data stored on success. */
  function Step2Outcome(req: Step2Choice, c: Catalog): Result<Step2Choice, RegError> {
    if |req.skillIds| + NonBlankCount(req.customSkills) == 0 then Err(NoSkills)
    else if |req.roleIds| + NonBlankCount(req.customRoles) == 0 then Err(NoRoles)
    else IdsOutcome(req, c)
  }

  /** The id checks: every skill id, then every role id, must be known. */
  function IdsOutcome(req: Step2Choice, c: Catalog): Result<Step2Choice, RegError> {
    var badSkill, badRole := FirstWhere(req.skillIds, Unknown(c.skillIds)), FirstWhere(req.roleIds, Unknown(c.roleIds));
    if badSkill.Some? then Err(InvalidSkillId(req.skillIds[badSkill.value]))
    else if badRole.Some? then Err(InvalidRoleId(req.roleIds[badRole.value]))
    else NamesOutcome(req, c)
  }

  /** The custom-name checks: no stripped custom skill, then role, may already be known. */
  function NamesOutcome(req: Step2Choice, c: Catalog): Result<Step2Choice, RegError> {
    var takenSkill, takenRole := FirstWhere(req.customSkills, TakenIn(c.skillNames)), FirstWhere(req.customRoles, TakenIn(c.roleNames));
    if takenSkill.Some? then Err(SkillExists(req.customSkills[takenSkill.value]))
    else if takenRole.Some? then Err(RoleExists(req.customRoles[takenRole.value]))
    else CleanedOutcome(req)
  }

  /** The final checks on the cleaned lists, and the data stored. */
  function CleanedOutcome(req: Step2Choice): Result<Step2Choice, RegError> {
    var skills, roles := StripNonBlank(req.customSkills), StripNonBlank(req.customRoles);
    if |req.skillIds| + |skills| == 0 then Err(NoValidSkills)
    else if |req.roleIds| + |roles| == 0 then Err(NoValidRoles)
    else Ok(Step2Choice(req.skillIds, req.roleIds, skills, roles))
  }

  /** The final "valid skill/role" checks of step 2 never refuse: the earlier count checks already did. */
  lemma FinalChecksUnreachable(req: Step2Choice, c: Catalog)
    ensures Step2Outcome(req, c) != Err(NoValidSkills) && Step2Outcome(req, c) != Err(NoValidRoles)
  {
    if |req.skillIds| + NonBlankCount(req.customSkills) > 0 && |req.roleIds| + NonBlankCount(req.customRoles) > 0 {
      CleanedAccepts(req);
    }
  }

  /** Once the counts were positive, the cleaned lists leave some skill and some role. */
  lemma CleanedAccepts(req: Step2Choice)
    requires |req.skillIds| + NonBlankCount(req.customSkills) > 0 && |req.roleIds| + NonBlankCount(req.customRoles) > 0
    ensures CleanedOutcome(req).Ok?
  {
    StripNonBlankLength(req.customSkills);
    StripNonBlankLength(req.customRoles);
  }

  /**
   * Step 2 accepts iff some skill and some role are chosen, every chosen id is
   * known and no custom name is taken; it then stores the chosen ids and the
   * stripped non-blank custom names in order.
   */
  lemma Step2Accepts(req: Step2Choice, c: Catalog)
    ensures Step2Outcome(req, c).Ok? <==>
              |req.skillIds| + NonBlankCount(req.customSkills) > 0 && |req.roleIds| + NonBlankCount(req.customRoles) > 0
              && (forall j :: 0 <= j < |req.skillIds| ==> req.skillIds[j] in c.skillIds)
              && (forall j :: 0 <= j < |req.roleIds| ==> req.roleIds[j] in c.roleIds)
              && (forall j :: 0 <= j < |req.customSkills| ==> !Taken(req.customSkills[j], c.skillNames))
              && (forall j :: 0 <= j < |req.customRoles| ==> !Taken(req.customRoles[j], c.roleNames))
    ensures Step2Outcome(req, c).Ok? ==>
              Step2Outcome(req, c).value == Step2Choice(req.skillIds, req.roleIds, StripNonBlank(req.customSkills), StripNonBlank(req.customRoles))
  {
    FirstWhereSpec(req.skillIds, Unknown(c.skillIds));
    FirstWhereSpec(req.roleIds, Unknown(c.roleIds));
    FirstWhereSpec(req.customSkills, TakenIn(c.skillNames));
    FirstWhereSpec(req.customRoles, TakenIn(c.roleNames));
    FinalChecksUnreachable(req, c);
  }

  /** A refused custom name is one whose stripped form is a known name, reported as it was typed. */
  lemma SkillExistsNamesTaken(req: Step2Choice, c: Catalog, name: string)
    requires Step2Outcome(req, c) == Err(SkillExists(name))
    ensures exists j :: 0 <= j < |req.customSkills| && req.customSkills[j] == name && Taken(name, c.skillNames)
  {
    FirstWhereSpec(req.customSkills, TakenIn(c.skillNames));
  }

  /** The `for skill_id in ...` validation loops. */
  method CheckIds(ids: seq<int>, present: set<int>) returns (bad: Option<nat>)
    ensures bad == FirstWhere(ids, Unknown(present))
  {
    for i := 0 to |ids|
      invariant FirstWhere(ids[..i], Unknown(present)).None?
    {
      assert ids[..i + 1][..i] == ids[..i];
      if ids[i] !in present {
        assert FirstWhere(ids[..i + 1], Unknown(present)) == Some(i);
        FirstWherePrefix(ids, Unknown(present), i + 1);
        return Some(i);
      }
    }
    assert ids[..|ids|] == ids;
    return None;
  }

  /** The custom-name loops: the index of the first taken name, or the stripped non-blank names. */
  method CollectCustom(names: seq<string>, existing: set<string>) returns (taken: Option<nat>, collected: seq<string>)
    ensures taken == FirstWhere(names, TakenIn(existing))
    ensures taken.None? ==> collected == StripNonBlank(names)
  {
    collected := [];
    for i := 0 to |names|
      invariant FirstWhere(names[..i], TakenIn(existing)).None?
      invariant collected == StripNonBlank(names[..i])
    {
      assert names[..i + 1][..i] == names[..i];
      var n := Strip(names[i]);
      if n == "" {
        assert StripNonBlank(names[..i + 1]) == StripNonBlank(names[..i]);
        continue;
      }
      if n in existing {
        assert FirstWhere(names[..i + 1], TakenIn(existing)) == Some(i);
        FirstWherePrefix(names, TakenIn(existing), i + 1);
        return Some(i), collected;
      }
      assert StripNonBlank(names[..i + 1]) == StripNonBlank(names[..i]) + [n];
      collected := collected + [n];
    }
    assert names[..|names|] == names;
    return None, collected;
  }

  /** The checks of `complete_step2` after the session check. */
  method ValidateStep2(req: Step2Choice, c: Catalog) returns (r: Result<Step2Choice, RegError>)
    ensures r == Step2Outcome(req, c)
  {
    if |req.skillIds| + NonBlankCount(req.customSkills) == 0 { return Err(NoSkills); }
    if |req.roleIds| + NonBlankCount(req.customRoles) == 0 { return Err(NoRoles); }
    var badSkill := CheckIds(req.skillIds, c.skillIds);
    if badSkill.Some? { return Err(InvalidSkillId(req.skillIds[badSkill.value])); }
    var badRole := CheckIds(req.roleIds, c.roleIds);
    if badRole.Some? { return Err(InvalidRoleId(req.roleIds[badRole.value])); }
    var takenSkill, skills := CollectCustom(req.customSkills, c.skillNames);
    if takenSkill.Some? { return Err(SkillExists(req.customSkills[takenSkill.value])); }
    var takenRole, roles := CollectCustom(req.customRoles, c.roleNames);
    if takenRole.Some? { return Err(RoleExists(req.customRoles[takenRole.value])); }
    if |req.skillIds| + |skills| == 0 { return Err(NoValidSkills); }
    if |req.roleIds| + |roles| == 0 { return Err(NoValidRoles); }
    return Ok(Step2Choice(req.skillIds, req.roleIds, skills, roles));
  }

  /* -------------------------------------------------------- steps 2 to 4 */

  /** `complete_step2`: only an existing session is required. */
  function Step2(sessions: map<string, Session>, userId: string, req: Step2Choice, c: Catalog): (map<string, Session>, Result<StepResponse, RegError>) {
    if userId !in sessions then (sessions, Err(Step1First))
    else match Step2Outcome(req, c)
      case Err(e) => (sessions, Err(e))
      case Ok(data) =>
        var s := sessions[userId];
        (sessions[userId := s.(step2 := Some(data), currentStep := 2, completedSteps := s.completedSteps + [2])],
         Ok(StepResponse(2, Some(3), false)))
  }

  /** `complete_step3`: requires `current_step >= 2`. */
  function Step3(sessions: map<string, Session>, userId: string, experiences: seq<ExperienceInput>): (map<string, Session>, Result<StepResponse, RegError>) {
    if userId !in sessions || sessions[userId].currentStep < 2 then (sessions, Err(PreviousStepsFirst))
    else
      var s := sessions[userId];
      (sessions[userId := s.(step3 := Some(experiences), currentStep := 3, completedSteps := s.completedSteps + [3])],
       Ok(StepResponse(3, Some(4), false)))
  }

  /** `complete_step4`: requires `current_step >= 3` and exactly four answers. */
  function Step4(sessions: map<string, Session>, userId: string, answers: seq<Answer>): (map<string, Session>, Result<StepResponse, RegError>) {
    if userId !in sessions || sessions[userId].currentStep < 3 then (sessions, Err(PreviousStepsFirst))
    else if |answers| != 4 then (sessions, Err(WrongAnswerCount))
    else
      var s := sessions[userId];
      (sessions[userId := s.(step4 := Some(answers), currentStep := 4, completedSteps := s.completedSteps + [4])],
       Ok(StepResponse(4, None, true)))
  }

  /** Replacing one user's session by a well-formed one keeps every session well formed. */
  lemma UpdateKeepsSessionsOk(sessions: map<string, Session>, userId: string, s: Session)
    requires SessionsOk(sessions) && SessionOk(userId, s)
    ensures SessionsOk(sessions[userId := s])
  {
  }

  /** Every step keeps every session well formed. */
  lemma Step1KeepsSessionsOk(sessions: map<string, Session>, codeOk: bool, req: Step1Request, now: int)
    requires SessionsOk(sessions)
    ensures SessionsOk(Step1(sessions, codeOk, req, now).0)
  {
    if codeOk {
      UpdateKeepsSessionsOk(sessions, req.userId, NewSession(req, now));
    }
  }

  lemma Step2KeepsSessionsOk(sessions: map<string, Session>, userId: string, req: Step2Choice, c: Catalog)
    requires SessionsOk(sessions)
    ensures SessionsOk(Step2(sessions, userId, req, c).0)
  {
    if userId in sessions && Step2Outcome(req, c).Ok? {
      var s := sessions[userId];
      var s' := s.(step2 := Some(Step2Outcome(req, c).value), currentStep := 2, completedSteps := s.completedSteps + [2]);
      assert SessionOk(userId, s');
      UpdateKeepsSessionsOk(sessions, userId, s');
    }
  }

  lemma Step3KeepsSessionsOk(sessions: map<string, Session>, userId: string, experiences: seq<ExperienceInput>)
    requires SessionsOk(sessions)
    ensures SessionsOk(Step3(sessions, userId, experiences).0)
  {
    if userId in sessions && sessions[userId].currentStep >= 2 {
      var s := sessions[userId];
      var s' := s.(step3 := Some(experiences), currentStep := 3, completedSteps := s.completedSteps + [3]);
      assert SessionOk(userId, s');
      UpdateKeepsSessionsOk(sessions, userId, s');
    }
  }

  lemma Step4KeepsSessionsOk(sessions: map<string, Session>, userId: string, answers: seq<Answer>)
    requires SessionsOk(sessions)
    ensures SessionsOk(Step4(sessions, userId, answers).0)
  {
    if userId in sessions && sessions[userId].currentStep >= 3 && |answers| == 4 {
      var s := sessions[userId];
      var s' := s.(step4 := Some(answers), currentStep := 4, completedSteps := s.completedSteps + [4]);
      assert SessionOk(userId, s');
      UpdateKeepsSessionsOk(sessions, userId, s');
    }
  }

  /**
   * A refused step changes no session. Step 3 is refused iff the user has no
   * session or it is before step 2; step 4 iff before step 3 or the answers are not four.
   */
  lemma StepGuards(sessions: map<string, Session>, userId: string, req2: Step2Choice, c: Catalog,
                   experiences: seq<ExperienceInput>, answers: seq<Answer>)
    ensures Step2(sessions, userId, req2, c).1.Err? ==> Step2(sessions, userId, req2, c).0 == sessions
    ensures userId !in sessions ==> Step2(sessions, userId, req2, c).1 == Err(Step1First)
    ensures Step3(sessions, userId, experiences).1.Err? <==> userId !in sessions || sessions[userId].currentStep < 2
    ensures Step3(sessions, userId, experiences).1.Err? ==> Step3(sessions, userId, experiences).0 == sessions
    ensures Step4(sessions, userId, answers).1.Err? <==>
              userId !in sessions || sessions[userId].currentStep < 3 || |answers| != 4
    ensures Step4(sessions, userId, answers).1.Err? ==> Step4(sessions, userId, answers).0 == sessions
  {
  }

  /** How many times `x` occurs in `s`. */
  function Occurrences(s: seq<int>, x: int): nat {
    if s == [] then 0 else Occurrences(s[..|s| - 1], x) + (if s[|s| - 1] == x then 1 else 0)
  }

  /** Re-running step 2 on a later session moves it back to step 2 and lists step 2 once more. */
  lemma Step2Rerun(sessions: map<string, Session>, userId: string, req: Step2Choice, c: Catalog)
    requires userId in sessions && Step2Outcome(req, c).Ok?
    ensures var s, s' := sessions[userId], Step2(sessions, userId, req, c).0[userId];
            s'.currentStep == 2 && (s.currentStep >= 2 ==> s'.currentStep <= s.currentStep)
    ensures var s, s' := sessions[userId], Step2(sessions, userId, req, c).0[userId];
            Occurrences(s'.completedSteps, 2) == Occurrences(s.completedSteps, 2) + 1
  {
    var s := sessions[userId];
    assert (s.completedSteps + [2])[..|s.completedSteps|] == s.completedSteps;
  }

  /** `get_registration_status`. */
  function Status(sessions: map<string, Session>, userId: string): Result<RegistrationStatus, RegError> {
    if userId !in sessions then Err(SessionNotFound)
    else
      var s := sessions[userId];
      Ok(RegistrationStatus(userId, s.currentStep, s.currentStep >= 4, s.completedSteps))
  }

  /** The status is 404 for an unknown user; otherwise it reports completion iff the session reached step 4. */
  lemma StatusSpec(sessions: map<string, Session>, userId: string)
    ensures Status(sessions, userId).Err? <==> userId !in sessions
    ensures Status(sessions, userId).Err? ==> StatusCode(Status(sessions, userId).error) == 404
    ensures userId in sessions ==>
              Status(sessions, userId).Ok? && (Status(sessions, userId).value.isCompleted <==> sessions[userId].currentStep >= 4)
  {
  }

  /** Steps 1 to 4 in order, each accepted, leave a session that reports itself complete. */
  lemma FourStepsComplete(sessions: map<string, Session>, req1: Step1Request, now: int, req2: Step2Choice, c: Catalog,
                          experiences: seq<ExperienceInput>, answers: seq<Answer>)
    requires Step2Outcome(req2, c).Ok? && |answers| == 4
    ensures var u := req1.userId;
            var s1 := Step1(sessions, true, req1, now).0;
            var s2 := Step2(s1, u, req2, c).0;
            var s3 := Step3(s2, u, experiences).0;
            var s4 := Step4(s3, u, answers);
            s4.1.Ok? && Status(s4.0, u) == Ok(RegistrationStatus(u, 4, true, [1, 2, 3, 4]))
  {
    var u := req1.userId;
    var s1 := Step1(sessions, true, req1, now).0;
    assert s1[u].currentStep == 1 && s1[u].completedSteps == [1];
    var s2 := Step2(s1, u, req2, c).0;
    assert s2[u].currentStep == 2 && s2[u].completedSteps == [1, 2];
    var s3 := Step3(s2, u, experiences).0;
    assert s3[u].currentStep == 3 && s3[u].completedSteps == [1, 2, 3];
    var s4 := Step4(s3, u, answers);
    assert s4.0[u].currentStep == 4 && s4.0[u].completedSteps == [1, 2, 3, 4];
  }

  /* ---------------------------------------------------------- completion */

  /** What `complete_registration` commits for a session, or why it refuses. */
  function Completion(sessions: map<string, Session>, userId: string, options: map<int, string>, questions: map<int, string>,
                      rules: seq<ProfileRule>): Result<Account, RegError>
    requires SessionsOk(sessions)
  {
    if userId !in sessions || sessions[userId].currentStep < 4 then Err(AllStepsFirst)
    else
      var s := sessions[userId];
      match TestOutcome(s.step4.value, options, questions, rules)
      case Err(e) => Err(TestFailed(e))
      case Ok(res) => Ok(AccountOf(s, res))
  }

  /** The user, links and profile created from a finished session. */
  function AccountOf(s: Session, res: TestResult): Account
    requires s.step2.Some? && s.step3.Some?
  {
    var d := s.step2.value;
    Account(s.step1.userId, s.step1.name, s.step1.email, d.customSkills, d.skillIds, d.customRoles, d.roleIds,
            s.step3.value, res.profileCode, res.traits)
  }

  /** The traits loop and the profile search of `complete_registration`. */
  method RunTest(answers: seq<Answer>, options: map<int, string>, questions: map<int, string>, rules: seq<ProfileRule>)
    returns (r: Result<TestResult, TestError>)
    ensures r == TestOutcome(answers, options, questions, rules)
  {
    var traits := BuildTraits(answers, options, questions);
    if traits.Err? {
      return Err(traits.error);
    }
    var rule := FindMatchingProfile(rules, traits.value);
    if rule.None? {
      return Err(NoMatchingProfile);
    }
    return Ok(TestResult(rule.value.profileCode, rule.value.displayName, rule.value.description, traits.value));
  }

  /**
   * Completion needs a session at step 4 and a personality result; the account
   * carries the session's step data and the best-matching profile of its answers.
   */
  lemma CompletionSpec(sessions: map<string, Session>, userId: string, options: map<int, string>, questions: map<int, string>,
                       rules: seq<ProfileRule>)
    requires SessionsOk(sessions)
    ensures Completion(sessions, userId, options, questions, rules).Ok? ==>
              userId in sessions && sessions[userId].currentStep >= 4
    ensures Completion(sessions, userId, options, questions, rules).Ok? ==>
              var s, acc := sessions[userId], Completion(sessions, userId, options, questions, rules).value;
              acc.userId == userId && acc.email == s.step1.email
              && acc.customSkills == s.step2.value.customSkills && acc.experiences == s.step3.value
              && Traits(s.step4.value, options, questions) == Ok(acc.traits)
              && exists k: nat :: IsBestMatch(rules, acc.traits.Values, k) && rules[k].profileCode == acc.profileCode
  {
    if Completion(sessions, userId, options, questions, rules).Ok? {
      TestOutcomeQualifies(sessions[userId].step4.value, options, questions, rules);
    }
  }

  /**
   * The tables after a sign-up's custom skills and roles are inserted: their
   * names join the catalogue and each insert takes the next autoincrement id.
   */
  function WithCustom(c: Catalog, acc: Account): Catalog {
    var ns, nr := |acc.customSkills|, |acc.customRoles|;
    c.(skillIds := c.skillIds + IdRange(c.nextSkillId, ns), skillNames := c.skillNames + Elements(acc.customSkills),
       nextSkillId := c.nextSkillId + ns,
       roleIds := c.roleIds + IdRange(c.nextRoleId, nr), roleNames := c.roleNames + Elements(acc.customRoles),
       nextRoleId := c.nextRoleId + nr)
  }

  /**
   * Inserting a sign-up's custom names keeps every stored id, stores every
   * custom name, and gives the k-th custom skill (role) a fresh id that a
   * later step 2 accepts; the tables stay well formed.
   */
  lemma WithCustomFresh(c: Catalog, acc: Account)
    requires CatalogOk(c)
    ensures var r := WithCustom(c, acc);
            CatalogOk(r) && c.skillIds <= r.skillIds && c.roleIds <= r.roleIds
            && c.skillNames <= r.skillNames && c.roleNames <= r.roleNames
            && (forall k :: 0 <= k < |acc.customSkills| ==>
                  acc.customSkills[k] in r.skillNames && c.nextSkillId + k in r.skillIds - c.skillIds)
            && (forall k :: 0 <= k < |acc.customRoles| ==>
                  acc.customRoles[k] in r.roleNames && c.nextRoleId + k in r.roleIds - c.roleIds)
  {
    IdRangeMembers(c.nextSkillId, |acc.customSkills|);
    IdRangeMembers(c.nextRoleId, |acc.customRoles|);
  }

  /** Step 2 stored custom skill or role names. */
  predicate HasCustom(d: Step2Choice) {
    d.customSkills != [] || d.customRoles != []
  }

  /**
   * `complete_registration` as written: `Skill(name=..., is_custom=True)` and
   * `Role(name=..., is_custom=True)` name a column neither table declares, so
   * any custom name raises, the transaction is rolled back and the answer is 500.
   */
  function CompletionAsWritten(sessions: map<string, Session>, userId: string, options: map<int, string>,
                               questions: map<int, string>, rules: seq<ProfileRule>): (r: Result<Account, RegError>)
    requires SessionsOk(sessions)
    ensures r.Ok? ==> userId in sessions && sessions[userId].currentStep >= 4 && !HasCustom(sessions[userId].step2.value)
    ensures userId in sessions && sessions[userId].currentStep >= 4 && !HasCustom(sessions[userId].step2.value) ==>
              r == Completion(sessions, userId, options, questions, rules)
  {
    if userId !in sessions || sessions[userId].currentStep < 4 then Err(AllStepsFirst)
    else if HasCustom(sessions[userId].step2.value) then Err(InternalError)
    else Completion(sessions, userId, options, questions, rules)
  }

  /**
   * A finished session whose step 2 added the custom skill "Flutter" and whose
   * answers match a profile: the intended completion commits it, the code as
   * written answers 500.
   */
  lemma CustomSkillRefusedAsWritten()
    ensures var req := Step1Request("u", "Kim", "kim@example.com", "pw", "123456");
            var s := Session(req, Some(Step2Choice([1], [1], ["Flutter"], [])), Some([]), Some([]), 4, [1, 2, 3, 4], 0);
            var rules := [ProfileRule("P", "P", "", 0, [])];
            SessionsOk(map["u" := s])
            && Completion(map["u" := s], "u", map[], map[], rules).Ok?
            && CompletionAsWritten(map["u" := s], "u", map[], map[], rules) == Err(InternalError)
  {
    var req := Step1Request("u", "Kim", "kim@example.com", "pw", "123456");
    var s := Session(req, Some(Step2Choice([1], [1], ["Flutter"], [])), Some([]), Some([]), 4, [1, 2, 3, 4], 0);
    var rules := [ProfileRule("P", "P", "", 0, [])];
    assert SessionOk("u", s);
    var none: map<string, string> := map[];
    assert none.Values == {};
    EmptyRuleMatches(rules, none.Values, 0);
  }

  /** The database and the sessions of the sign-up flow. */
  class RegistrationService {
    var sessions: map<string, Session>
    var users: set<string>
    var emails: set<string>
    var catalog: Catalog
    var accounts: seq<Account>
    const options: map<int, string>
    const questions: map<int, string>
    const rules: seq<ProfileRule>
    const auth: Store

    predicate Valid()
      reads this, auth
    {
      auth.Valid() && SessionsOk(sessions) && CatalogOk(catalog)
    }

    constructor (catalog: Catalog, options: map<int, string>, questions: map<int, string>, rules: seq<ProfileRule>, auth: Store)
      requires auth.Valid() && CatalogOk(catalog)
      ensures Valid()
      ensures sessions == map[] && users == {} && emails == {} && this.catalog == catalog && accounts == []
      ensures this.options == options && this.questions == questions && this.rules == rules && this.auth == auth
    {
      sessions, users, emails, accounts := map[], {}, {}, [];
      this.catalog, this.options, this.questions, this.rules, this.auth := catalog, options, questions, rules, auth;
    }

    /** `complete_step1`: a free user id and e-mail, then a verified code, start a fresh session. */
    method CompleteStep1(req: Step1Request, now: int) returns (r: Result<StepResponse, RegError>)
      requires Valid()
      modifies this`sessions, auth`codes, auth`verified
      ensures Valid()
      ensures req.userId in users ==> r == Err(UserIdTaken) && sessions == old(sessions)
      ensures req.userId !in users && req.email in emails ==> r == Err(EmailTaken) && sessions == old(sessions)
      ensures req.userId in users || req.email in emails ==> auth.codes == old(auth.codes) && auth.verified == old(auth.verified)
      ensures req.userId !in users && req.email !in emails ==>
                var live := Unexpired(old(auth.codes), CodeExpiry(), now);
                var check := CheckCode(live, req.email, req.verificationCode);
                auth.codes == check.1 && auth.verified == Unexpired(old(auth.verified), VerifiedExpiry(), now)
                && (sessions, r) == Step1(old(sessions), check.0, req, now)
    {
      if req.userId in users {
        return Err(UserIdTaken);
      }
      if req.email in emails {
        return Err(EmailTaken);
      }
      var ok := auth.VerifyEmailCode(req.email, req.verificationCode, now);
      if !ok {
        return Err(InvalidCode);
      }
      sessions := sessions[req.userId := NewSession(req, now)];
      r := Ok(StepResponse(1, Some(2), false));
    }

    /** `complete_step2`. */
    method CompleteStep2(userId: string, req: Step2Choice) returns (r: Result<StepResponse, RegError>)
      requires Valid()
      modifies this`sessions
      ensures Valid()
      ensures (sessions, r) == Step2(old(sessions), userId, req, catalog)
    {
      Step2KeepsSessionsOk(sessions, userId, req, catalog);
      if userId !in sessions {
        return Err(Step1First);
      }
      var data := ValidateStep2(req, catalog);
      if data.Err? {
        return Err(data.error);
      }
      var s := sessions[userId];
      sessions := sessions[userId := s.(step2 := Some(data.value), currentStep := 2, completedSteps := s.completedSteps + [2])];
      r := Ok(StepResponse(2, Some(3), false));
    }

    /** `complete_step3`. */
    method CompleteStep3(userId: string, experiences: seq<ExperienceInput>) returns (r: Result<StepResponse, RegError>)
      requires Valid()
      modifies this`sessions
      ensures Valid()
      ensures (sessions, r) == Step3(old(sessions), userId, experiences)
    {
      if userId !in sessions || sessions[userId].currentStep < 2 {
        return Err(PreviousStepsFirst);
      }
      var s := sessions[userId];
      sessions := sessions[userId := s.(step3 := Some(experiences), currentStep := 3, completedSteps := s.completedSteps + [3])];
      r := Ok(StepResponse(3, Some(4), false));
    }

    /** `complete_step4`. */
    method CompleteStep4(userId: string, answers: seq<Answer>) returns (r: Result<StepResponse, RegError>)
      requires Valid()
      modifies this`sessions
      ensures Valid()
      ensures (sessions, r) == Step4(old(sessions), userId, answers)
    {
      if userId !in sessions || sessions[userId].currentStep < 3 {
        return Err(PreviousStepsFirst);
      }
      if |answers| != 4 {
        return Err(WrongAnswerCount);
      }
      var s := sessions[userId];
      sessions := sessions[userId := s.(step4 := Some(answers), currentStep := 4, completedSteps := s.completedSteps + [4])];
      r := Ok(StepResponse(4, None, true));
    }

    /**
     * `complete_registration`: a session at step 4 whose answers give a profile
     * is committed as an account, its custom names join the catalogue, its
     * e-mail is marked verified and the session is deleted last. A refusal
     * changes nothing.
     */
    method CompleteRegistration(userId: string, now: int) returns (r: Result<StepResponse, RegError>)
      requires Valid()
      modifies this`sessions, this`users, this`emails, this`catalog, this`accounts, auth`verified
      ensures Valid()
      ensures var outcome := Completion(old(sessions), userId, options, questions, rules);
              outcome.Err? ==>
                r == Err(outcome.error) && sessions == old(sessions) && users == old(users) && emails == old(emails)
                && catalog == old(catalog) && accounts == old(accounts) && auth.verified == old(auth.verified)
      ensures var outcome := Completion(old(sessions), userId, options, questions, rules);
              outcome.Ok? ==>
                var acc := outcome.value;
                r == Ok(StepResponse(4, None, true)) && sessions == old(sessions) - {userId}
                && accounts == old(accounts) + [acc] && users == old(users) + {acc.userId} && emails == old(emails) + {acc.email}
                && catalog == WithCustom(old(catalog), acc)
                && auth.verified == old(auth.verified)[acc.email := VerifiedEntry(now, now + VerifiedLifetime)]
    {
      if userId !in sessions || sessions[userId].currentStep < 4 {
        return Err(AllStepsFirst);
      }
      var s := sessions[userId];
      var test := RunTest(s.step4.value, options, questions, rules);
      if test.Err? {
        return Err(TestFailed(test.error));
      }
      Commit(userId, AccountOf(s, test.value), now);
      r := Ok(StepResponse(4, None, true));
    }

    /** The inserts of a completed sign-up, the verified mark of its e-mail, and the deletion of the session. */
    method Commit(userId: string, acc: Account, now: int)
      requires Valid()
      modifies this`sessions, this`users, this`emails, this`catalog, this`accounts, auth`verified
      ensures Valid()
      ensures sessions == old(sessions) - {userId}
      ensures accounts == old(accounts) + [acc] && users == old(users) + {acc.userId} && emails == old(emails) + {acc.email}
      ensures catalog == WithCustom(old(catalog), acc)
      ensures auth.verified == old(auth.verified)[acc.email := VerifiedEntry(now, now + VerifiedLifetime)]
    {
      users := users + {acc.userId};
      emails := emails + {acc.email};
      WithCustomFresh(catalog, acc);
      catalog := WithCustom(catalog, acc);
      accounts := accounts + [acc];
      var _ := auth.MarkEmailAsVerified(acc.email, now);
      sessions := sessions - {userId};
    }

    /** `get_registration_status`. */
    method GetRegistrationStatus(userId: string) returns (r: Result<RegistrationStatus, RegError>)
      ensures r == Status(sessions, userId)
    {
      if userId !in sessions {
        return Err(SessionNotFound);
      }
      var s := sessions[userId];
      return Ok(RegistrationStatus(userId, s.currentStep, s.currentStep >= 4, s.completedSteps));
    }
  }

  /** The names of a list, as a set. */
  function Elements(s: seq<string>): set<string> {
    set i | 0 <= i < |s| :: s[i]
  }
}
