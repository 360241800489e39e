/**
 * The thinkyou adapter, `jobs/crawling/thinkyou.py`, after the text of its
 * pages has been extracted: the scan of a list page up to its first closed
 * contest, the eligibility of a contest by the text under its first
 * eligibility term, the exclusions it records, the page loop that stops at a
 * closed contest, and the cap on saved records.
 */
module Thinkyou {
  import opened Wrappers
  import opened Text
  import opened Records
  import opened SiteRules

  const Site: string := "https://thinkyou.co.kr"

  /** The status text of a closed contest. */
  const ClosedStatus: string := "마감"

  /** The terms whose description says who may enter. */
  const EligibilityTerms: seq<string> := ["응모자격", "참여대상", "참가대상", "교육대상"]

  const EligibleKeywords: seq<string> :=
    ["대학생", "대학원생", "일반인", "누구나", "대학(원)생", "내국인", "대한민국 국민", "나이 무관", "대학/대학원", "비전공자", "연구자", "학생"]

  /** Contests for school pupils, which are left out without an exclusion record. */
  const SchoolKeywords: seq<string> := ["초등학교", "중학교", "고등학교", "초등부", "중등부", "고등부"]

  /** The eligibility text when no description was found. */
  const NoEligibilityInfo: string := "응모자격 정보를 찾을 수 없음"

  /** The prefix of the reason recorded when the eligibility check raised. */
  const ErrorPrefix: string := "오류 발생: "

  /** The most records saved per run. */
  const SaveLimit: nat := 5

  /** The title link of a list row: its stripped text and its `href`. */
  datatype Link = Link(text: string, href: string)

  /** A row of the list: its stripped status text and its title link, each `None` when missing. */
  datatype ListRow = ListRow(status: Option<string>, link: Option<Link>)

  predicate Closed(row: ListRow) {
    row.status == Some(ClosedStatus)
  }

  /* --------------------------------------------------------- list scan */

  /** The rows before the first closed one, and whether a closed one was found. */
  function OpenPrefix(rows: seq<ListRow>): (seq<ListRow>, bool) {
    if rows == [] then ([], false)
    else if Closed(rows[0]) then ([], true)
    else
      var rest := OpenPrefix(rows[1..]);
      ([rows[0]] + rest.0, rest.1)
  }

  /** `get_contest_list_with_status` on the rows of a page, the first being the header. */
  function Scan(rows: seq<ListRow>): (seq<ListRow>, bool) {
    if rows == [] then ([], false) else OpenPrefix(rows[1..])
  }

  lemma {:induction false} OpenPrefixSpec(rows: seq<ListRow>)
    ensures var (open, found) := OpenPrefix(rows);
            |open| <= |rows| && open == rows[..|open|]
            && (forall k :: 0 <= k < |open| ==> !Closed(open[k]))
            && (found <==> |open| < |rows|)
            && (found ==> Closed(rows[|open|]))
  {
    if rows != [] && !Closed(rows[0]) {
      OpenPrefixSpec(rows[1..]);
      var open := OpenPrefix(rows).0;
      assert open == [rows[0]] + OpenPrefix(rows[1..]).0;
      assert forall k :: 1 <= k < |open| ==> open[k] == OpenPrefix(rows[1..]).0[k - 1];
    }
  }

  /**
   * The scan drops the header row and keeps, in order, the rows before the first
   * closed one; it reports a closed row iff there is one after the header.
   */
  lemma ScanSpec(rows: seq<ListRow>)
    ensures rows == [] ==> Scan(rows) == ([], false)
    ensures rows != [] ==>
              var (active, found) := Scan(rows);
              1 + |active| <= |rows| && active == rows[1..1 + |active|]
              && (forall k :: 0 <= k < |active| ==> !Closed(active[k]))
              && (found <==> exists k :: 1 <= k < |rows| && Closed(rows[k]))
              && (found ==> Closed(rows[1 + |active|]))
  {
    if rows != [] {
      var tail := rows[1..];
      OpenPrefixSpec(tail);
      var (active, found) := Scan(rows);
      assert forall k :: 0 <= k < |active| ==> active[k] == rows[1 + k];
      if !found {
        assert forall k :: 1 <= k < |rows| ==> rows[k] == active[k - 1];
      }
    }
  }

  /** `get_contest_list_with_status`: the loop that stops at the first closed row. */
  method ContestListWithStatus(rows: seq<ListRow>) returns (active: seq<ListRow>, foundClosed: bool)
    ensures (active, foundClosed) == Scan(rows)
  {
    active, foundClosed := [], false;
    if rows == [] {
      return;
    }
    var i := 1;
    assert [] + OpenPrefix(rows[1..]).0 == OpenPrefix(rows[1..]).0;
    while i < |rows|
      invariant 1 <= i <= |rows|
      invariant active + OpenPrefix(rows[i..]).0 == OpenPrefix(rows[1..]).0
      invariant OpenPrefix(rows[i..]).1 == OpenPrefix(rows[1..]).1
      decreases |rows| - i
    {
      if Closed(rows[i]) {
        assert active + [] == active;
        foundClosed := true;
        return;
      }
      assert rows[i..][1..] == rows[i + 1..];
      AppendAssoc(active, [rows[i]], OpenPrefix(rows[i + 1..]).0);
      active := active + [rows[i]];
      i := i + 1;
    }
    assert rows[i..] == [] && active + [] == active;
  }

  /* ------------------------------------------------------- detail page */

  /** A `dt` of the outline and the text of the `dd` after it, if there is one. */
  datatype Term = Term(name: string, description: Option<string>)

  /**
   * The extracted texts of a detail page: the poster `src`, the text of the
   * first `접수기간` row, the outline terms in order, and the message of an
   * error raised while the eligibility was checked.
   */
  datatype DetailPage = DetailPage(posterSrc: Option<string>, period: Option<string>, terms: seq<Term>, eligibilityError: Option<string>)

  /** The index of the first eligibility term of the outline, if any. */
  function FirstTerm(terms: seq<Term>): (k: Option<nat>)
    ensures k.Some? ==> k.value < |terms| && terms[k.value].name in EligibilityTerms
    ensures k.Some? ==> forall j :: 0 <= j < k.value ==> terms[j].name !in EligibilityTerms
    ensures k.None? ==> forall j :: 0 <= j < |terms| ==> terms[j].name !in EligibilityTerms
  {
    if terms == [] then None
    else if terms[0].name in EligibilityTerms then Some(0)
    else
      var rest := FirstTerm(terms[1..]);
      if rest.Some? then Some(rest.value + 1) else None
  }

  /** Whether the contest is eligible, and the eligibility text. */
  function Eligibility(terms: seq<Term>): (bool, string) {
    var k := FirstTerm(terms);
    if k.Some? && terms[k.value].description.Some? then
      var text := terms[k.value].description.value;
      (ContainsAny(text, EligibleKeywords), text)
    else (false, NoEligibilityInfo)
  }

  /**
   * Only the first eligibility term counts: a contest is eligible iff that term
   * has a description naming one of the eligible keywords, and that description
   * is the eligibility text.
   */
  lemma EligibilityUnderFirstTerm(terms: seq<Term>, k: nat)
    requires k < |terms| && terms[k].name in EligibilityTerms
    requires forall j :: 0 <= j < k ==> terms[j].name !in EligibilityTerms
    ensures Eligibility(terms).0 <==>
              terms[k].description.Some? && exists w :: 0 <= w < |EligibleKeywords| && Contains(terms[k].description.value, EligibleKeywords[w])
    ensures terms[k].description.Some? ==> Eligibility(terms).1 == terms[k].description.value
    ensures terms[k].description.None? ==> Eligibility(terms).1 == NoEligibilityInfo
  {
  }

  /** Without an eligibility term the contest is ineligible, and the text says no information was found. */
  lemma NoEligibilityTerm(terms: seq<Term>)
    requires forall j :: 0 <= j < |terms| ==> terms[j].name !in EligibilityTerms
    ensures Eligibility(terms) == (false, NoEligibilityInfo)
  {
  }

  /** The absolute `site_url` of a list link. */
  function SiteUrl(href: string): string {
    if href != "" && !StartsWith(href, "http") then Site + href else href
  }

  /** Every non-empty `site_url` starts with `http`; a relative one is the site followed by the path. */
  lemma SiteUrlAbsolute(href: string)
    requires href != ""
    ensures StartsWith(SiteUrl(href), "http")
    ensures StartsWith(href, "http") ==> SiteUrl(href) == href
    ensures !StartsWith(href, "http") ==> SiteUrl(href) == Site + href
  {
    if !StartsWith(href, "http") {
      assert SiteUrl(href)[..4] == Site[..4];
    }
  }

  /** What a fetched detail page yields, for the title and URL of its list row. */
  function Outcome(title: string, url: string, p: DetailPage): Detail {
    if p.eligibilityError.Some? then
      Detail(None, Some(ExclusionRecord(title, "응모자격", ErrorPrefix + p.eligibilityError.value, url)))
    else
      var (eligible, text) := Eligibility(p.terms);
      if !eligible then
        Detail(None, if ContainsAny(text, SchoolKeywords) then None else Some(ExclusionRecord(title, "응모자격", text, url)))
      else
        var period := Period(OrNA(p.period));
        Detail(Some(ContestRecord(title, url, PosterUrl(p.posterSrc, Site), period.0, period.1)), None)
  }

  /** An outcome is a record, with no exclusion, iff the check raised nothing and found the contest eligible. */
  lemma OutcomeSpec(title: string, url: string, p: DetailPage)
    ensures AtMostOne(Outcome(title, url, p))
    ensures Outcome(title, url, p).contest.Some? <==> p.eligibilityError.None? && Eligibility(p.terms).0
    ensures Outcome(title, url, p).contest.Some? ==>
              var r := Outcome(title, url, p).contest.value;
              r.Keys == {"title", "site_url", "poster_url", "start_date", "end_date"}
              && r["title"] == title && r["site_url"] == url && r["poster_url"] == PosterUrl(p.posterSrc, Site)
              && (r["start_date"], r["end_date"]) == Period(OrNA(p.period))
  {
    if p.eligibilityError.None? && Eligibility(p.terms).0 {
      var period := Period(OrNA(p.period));
      ContestRecordFields(title, url, PosterUrl(p.posterSrc, Site), period.0, period.1);
    }
  }

  /**
   * An error in the check is recorded with its message; an ineligible contest
   * is recorded with its eligibility text unless that text names a school.
   */
  lemma OutcomeExclusion(title: string, url: string, p: DetailPage)
    ensures p.eligibilityError.Some? ==>
              Outcome(title, url, p).exclusion == Some(map["title" := title, "응모자격" := ErrorPrefix + p.eligibilityError.value, "site_url" := url])
    ensures p.eligibilityError.None? && !Eligibility(p.terms).0 ==>
              var text := Eligibility(p.terms).1;
              Outcome(title, url, p).exclusion == if ContainsAny(text, SchoolKeywords) then None
                                                  else Some(map["title" := title, "응모자격" := text, "site_url" := url])
  {
  }

  /**
   * `extract_contest_info` for a list row, `fetch` giving the detail page at a
   * URL (`None` when the request failed). A row without a title or a link, or
   * whose page could not be fetched, yields nothing.
   */
  function Extract(row: ListRow, fetch: string -> Option<DetailPage>): (d: Detail)
    ensures row.link.None? || row.link.value.text == "" || row.link.value.href == "" ==> d == Detail(None, None)
    ensures row.link.Some? && fetch(SiteUrl(row.link.value.href)).None? ==> d == Detail(None, None)
  {
    if row.link.None? then Detail(None, None)
    else
      var title, url := row.link.value.text, SiteUrl(row.link.value.href);
      if title == "" || url == "" || fetch(url).None? then Detail(None, None)
      else Outcome(title, url, fetch(url).value)
  }

  /** A row with a title and a link yields what its page yields. */
  lemma ExtractFetched(row: ListRow, fetch: string -> Option<DetailPage>)
    requires row.link.Some? && row.link.value.text != "" && row.link.value.href != ""
    requires fetch(SiteUrl(row.link.value.href)).Some?
    ensures Extract(row, fetch) == Outcome(row.link.value.text, SiteUrl(row.link.value.href), fetch(SiteUrl(row.link.value.href)).value)
  {
    SiteUrlAbsolute(row.link.value.href);
  }

  /** The record a row adds to the run: digit-only titles are dropped, exclusions kept. */
  function Kept(d: Detail): (r: Detail)
    ensures r.exclusion == d.exclusion
    ensures r.contest.Some? <==> d.contest.Some? && !IsDigitString(GetOr(d.contest.value, "title", ""))
    ensures r.contest.Some? ==> r.contest == d.contest
  {
    if d.contest.Some? && IsDigitString(GetOr(d.contest.value, "title", "")) then d.(contest := None) else d
  }

  /** Extracting and filtering one row. */
  function Collect(fetch: string -> Option<DetailPage>): ListRow -> Detail {
    row => Kept(Extract(row, fetch))
  }

  /** What a row may add: at most one record, and a record only with a title that is not all digits. */
  predicate WellFormed(d: Detail) {
    AtMostOne(d) && (d.contest.Some? ==> "title" in d.contest.value && d.contest.value["title"] != "" && !IsDigitString(d.contest.value["title"]))
  }

  lemma CollectWellFormed(row: ListRow, fetch: string -> Option<DetailPage>)
    ensures WellFormed(Collect(fetch)(row))
  {
    if row.link.Some? && row.link.value.text != "" && row.link.value.href != "" && fetch(SiteUrl(row.link.value.href)).Some? {
      var url := SiteUrl(row.link.value.href);
      ExtractFetched(row, fetch);
      OutcomeSpec(row.link.value.text, url, fetch(url).value);
    }
  }

  /* ---------------------------------------------------------- page loop */

  /**
   * `crawl_thinkyou_contests` over the list pages the browser reaches in turn,
   * `collect` giving the outcome of each open row:
   * it stops at a page with no open rows, or after the page on which a closed
   * row was found, or when there is no further page.
   */
  function Crawl(pages: seq<seq<ListRow>>, collect: ListRow -> Detail): seq<Detail> {
    if pages == [] then []
    else
      var (active, found) := Scan(pages[0]);
      if active == [] then []
      else MapSeq(collect, active) + if found then [] else Crawl(pages[1..], collect)
  }

  /** One page of the run: its open rows' outcomes, then the later pages unless this one ends the run. */
  lemma CrawlUnfold(pages: seq<seq<ListRow>>, p: nat, collect: ListRow -> Detail)
    requires p < |pages|
    ensures var (active, found) := Scan(pages[p]);
            Crawl(pages[p..], collect) == MapSeq(collect, active) + if active == [] || found then [] else Crawl(pages[p + 1..], collect)
  {
    assert pages[p..][0] == pages[p] && pages[p..][1..] == pages[p + 1..];
    var (active, found) := Scan(pages[p]);
    if active == [] || found {
      assert MapSeq(collect, active) + [] == MapSeq(collect, active);
    }
  }

  /** The pages after one on which a closed contest was found are never looked at. */
  lemma StopsAtClosed(page: seq<ListRow>, later: seq<seq<ListRow>>, collect: ListRow -> Detail)
    requires Scan(page).1
    ensures Crawl([page] + later, collect) == Crawl([page], collect)
  {
    assert ([page] + later)[0] == page;
  }

  /** A page without open rows ends the run with nothing from it. */
  lemma StopsAtEmpty(page: seq<ListRow>, later: seq<seq<ListRow>>, collect: ListRow -> Detail)
    requires Scan(page).0 == []
    ensures Crawl([page] + later, collect) == []
  {
    assert ([page] + later)[0] == page;
  }

  /** Every outcome of the run is well formed. */
  lemma {:induction false} CrawlWellFormed(pages: seq<seq<ListRow>>, fetch: string -> Option<DetailPage>)
    ensures forall k :: 0 <= k < |Crawl(pages, Collect(fetch))| ==> WellFormed(Crawl(pages, Collect(fetch))[k])
  {
    if pages != [] {
      CrawlUnfold(pages, 0, Collect(fetch));
      assert pages[0..] == pages && pages[1..] == pages[0 + 1..];
      var (active, found) := Scan(pages[0]);
      var here := MapSeq(Collect(fetch), active);
      var rest := if active == [] || found then [] else Crawl(pages[1..], Collect(fetch));
      if active != [] && !found {
        CrawlWellFormed(pages[1..], fetch);
      }
      forall k | 0 <= k < |here + rest| ensures WellFormed((here + rest)[k]) {
        if k < |here| {
          CollectWellFormed(active[k], fetch);
        } else {
          assert (here + rest)[k] == rest[k - |here|];
        }
      }
    }
  }

  /**
   * Every collected record has a non-empty title that is not all digits, and
   * the records and exclusions together are as many as the rows that yield one.
   */
  lemma CollectedTitles(pages: seq<seq<ListRow>>, fetch: string -> Option<DetailPage>)
    ensures forall r :: r in Contests(Crawl(pages, Collect(fetch))) ==> "title" in r && r["title"] != "" && !IsDigitString(r["title"])
    ensures |Contests(Crawl(pages, Collect(fetch)))| + |Exclusions(Crawl(pages, Collect(fetch)))| == Yielding(Crawl(pages, Collect(fetch)))
  {
    var ds := Crawl(pages, Collect(fetch));
    CrawlWellFormed(pages, fetch);
    ContestsFromPages(ds);
    ContestsExclusionsCount(ds);
  }

  /** One more row adds its outcome. */
  lemma RowStep(active: seq<ListRow>, collect: ListRow -> Detail, i: nat)
    requires i < |active|
    ensures Contests(MapSeq(collect, active[..i + 1])) == Contests(MapSeq(collect, active[..i])) + AsSeq(collect(active[i]).contest)
    ensures Exclusions(MapSeq(collect, active[..i + 1])) == Exclusions(MapSeq(collect, active[..i])) + AsSeq(collect(active[i]).exclusion)
  {
    assert active[..i + 1] == active[..i] + [active[i]];
    MapSeqAppend(collect, active[..i], [active[i]]);
    ContestsSnoc(MapSeq(collect, active[..i]), collect(active[i]));
  }

  /** `extract_contest_info(row, excluded_contests)`. */
  method ExtractContestInfo(row: ListRow, fetch: string -> Option<DetailPage>, excluded: ExcludedList) returns (info: Option<Record>)
    modifies excluded
    ensures info == Extract(row, fetch).contest
    ensures excluded.items == old(excluded.items) + AsSeq(Extract(row, fetch).exclusion)
  {
    var d := Extract(row, fetch);
    excluded.Add(d.exclusion);
    info := d.contest;
  }

  /** One row of the loop: extract, then keep the record unless its title is all digits. */
  method CollectRow(row: ListRow, fetch: string -> Option<DetailPage>, excluded: ExcludedList) returns (kept: seq<Record>)
    modifies excluded
    ensures kept == AsSeq(Collect(fetch)(row).contest)
    ensures excluded.items == old(excluded.items) + AsSeq(Collect(fetch)(row).exclusion)
  {
    var info := ExtractContestInfo(row, fetch, excluded);
    ghost var d := Extract(row, fetch);
    assert Collect(fetch)(row) == Kept(d);
    if info.Some? && GetOr(info.value, "title", "") != "" && !IsDigitString(GetOr(info.value, "title", "")) {
      kept := [info.value];
    } else {
      kept := [];
    }
  }

  /** The row loop of one page. */
  method ExtractPage(active: seq<ListRow>, fetch: string -> Option<DetailPage>, excluded: ExcludedList)
    returns (contests: seq<Record>)
    modifies excluded
    ensures contests == Contests(MapSeq(Collect(fetch), active))
    ensures excluded.items == old(excluded.items) + Exclusions(MapSeq(Collect(fetch), active))
  {
    contests := [];
    ghost var collect := Collect(fetch);
    for i := 0 to |active|
      invariant contests == Contests(MapSeq(collect, active[..i]))
      invariant excluded.items == old(excluded.items) + Exclusions(MapSeq(collect, active[..i]))
    {
      var kept := CollectRow(active[i], fetch, excluded);
      RowStep(active, collect, i);
      AppendAssoc(old(excluded.items), Exclusions(MapSeq(collect, active[..i])), AsSeq(collect(active[i]).exclusion));
      contests := contests + kept;
    }
    assert active[..|active|] == active;
  }

  /** `crawl_thinkyou_contests`: the collected records, the exclusions appended to `excluded`. */
  method CrawlThinkyouContests(pages: seq<seq<ListRow>>, fetch: string -> Option<DetailPage>, excluded: ExcludedList)
    returns (contests: seq<Record>)
    modifies excluded
    ensures contests == Contests(Crawl(pages, Collect(fetch)))
    ensures excluded.items == old(excluded.items) + Exclusions(Crawl(pages, Collect(fetch)))
  {
    contests := [];
    ghost var collect := Collect(fetch);
    ghost var done: seq<Detail> := [];
    var p := 0;
    while p < |pages|
      invariant p <= |pages|
      invariant Crawl(pages, collect) == done + Crawl(pages[p..], collect)
      invariant contests == Contests(done)
      invariant excluded.items == old(excluded.items) + Exclusions(done)
      decreases |pages| - p
    {
      var active, found := ContestListWithStatus(pages[p]);
      PageStep(pages, p, collect, done);
      if active == [] {
        break;
      }
      var here := ExtractPage(active, fetch, excluded);
      AppendAssoc(old(excluded.items), Exclusions(done), Exclusions(MapSeq(collect, active)));
      contests := contests + here;
      done := done + MapSeq(collect, active);
      if found {
        break;
      }
      p := p + 1;
    }
    assert done + [] == done;
    assert pages[|pages|..] == [];
  }

  /** What one page of the loop adds to the outcomes so far. */
  lemma PageStep(pages: seq<seq<ListRow>>, p: nat, collect: ListRow -> Detail, done: seq<Detail>)
    requires p < |pages|
    ensures var (active, found) := Scan(pages[p]);
            var page := MapSeq(collect, active);
            (active == [] ==> done + Crawl(pages[p..], collect) == done)
            && (active != [] && found ==> done + Crawl(pages[p..], collect) == done + page)
            && (active != [] && !found ==> done + Crawl(pages[p..], collect) == (done + page) + Crawl(pages[p + 1..], collect))
            && Contests(done + page) == Contests(done) + Contests(page)
            && Exclusions(done + page) == Exclusions(done) + Exclusions(page)
  {
    CrawlUnfold(pages, p, collect);
    var (active, found) := Scan(pages[p]);
    var page := MapSeq(collect, active);
    ContestsAppend(done, page);
    ExclusionsAppend(done, page);
    if active == [] {
      assert page == [];
      assert done + [] == done;
    } else if !found {
      AppendAssoc(done, page, Crawl(pages[p + 1..], collect));
    }
  }

  /** `save_to_json`: at most the first five records are saved. */
  function Saved(contests: seq<Record>): (r: seq<Record>)
    ensures |r| <= SaveLimit && |r| <= |contests| && r == contests[..|r|]
    ensures |r| == if |contests| > SaveLimit then SaveLimit else |contests|
  {
    if |contests| > SaveLimit then contests[..SaveLimit] else contests
  }
}
