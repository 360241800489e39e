/**
 * The contestkorea adapter, `jobs/crawling/contestkorea.py`, after the text of
 * its pages has been extracted: the detail URL of each list item, the
 * eligibility of a contest by its target text, and the record or exclusion a
 * detail page yields.
 */
module ContestKorea {
  import opened Wrappers
  import opened Text
  import opened Records
  import opened SiteRules

  const Domain: string := "https://www.contestkorea.com"

  /** The targets a contest must mention to be collected. */
  const EligibleKeywords: seq<string> := ["대학생", "대학원생", "일반인", "누구나"]

  /** The extracted texts of a detail page; `None` where the selector found nothing. */
  datatype DetailPage = DetailPage(title: Option<string>, target: Option<string>, posterSrc: Option<string>, date: Option<string>)

  /** The detail URL of a list `href`, with `/sub/` never doubled. */
  function DetailUrl(href: string): string {
    if StartsWith(href, "/sub/") then Domain + href else Domain + "/sub/" + href
  }

  /** Every detail URL lies under the domain's `/sub/` path, and keeps the `href` at its end. */
  lemma DetailUrlUnderSub(href: string)
    ensures StartsWith(DetailUrl(href), Domain + "/sub/")
    ensures EndsWith(DetailUrl(href), href)
    ensures !StartsWith(href, "/sub/") ==> DetailUrl(href) == Domain + "/sub/" + href
  {
    var u := DetailUrl(href);
    if StartsWith(href, "/sub/") {
      assert u == Domain + href;
      assert u[..|Domain| + 5] == Domain + href[..5];
    } else {
      assert u[..|Domain| + 5] == Domain + "/sub/";
    }
    assert u[|u| - |href|..] == href;
  }

  /** `get_contest_details(url)` on a fetched page, or on a failed request (`None`). */
  function Details(url: string, page: Option<DetailPage>): Detail {
    if page.None? then Detail(None, None)
    else
      var p := page.value;
      var title, target := OrNA(p.title), Target(p.target);
      if !Eligible(target, EligibleKeywords) then Detail(None, Some(ExclusionRecord(title, "대상", target, url)))
      else
        var period := Period(OrNA(p.date));
        Detail(Some(ContestRecord(title, url, PosterUrl(p.posterSrc, Domain), period.0, period.1)), None)
  }

  /**
   * A fetched page yields a contest iff its target mentions an eligible keyword,
   * and otherwise exactly one exclusion naming its title, target and URL; a
   * failed request yields neither.
   */
  lemma DetailsSpec(url: string, page: Option<DetailPage>)
    ensures AtMostOne(Details(url, page))
    ensures page.None? ==> Details(url, page) == Detail(None, None)
    ensures page.Some? ==>
              (Details(url, page).contest.Some? <==>
                 Target(page.value.target) != NA && exists k :: 0 <= k < |EligibleKeywords| && Contains(Target(page.value.target), EligibleKeywords[k]))
    ensures page.Some? && Details(url, page).contest.None? ==>
              Details(url, page).exclusion == Some(map["title" := OrNA(page.value.title), "대상" := Target(page.value.target), "site_url" := url])
    ensures Details(url, page).contest.Some? ==>
              var r := Details(url, page).contest.value;
              r["site_url"] == url && r["title"] == OrNA(page.value.title)
              && (r["start_date"], r["end_date"]) == Period(OrNA(page.value.date))
  {
  }

  /** The outcome of following one list `href`, `fetch` giving the page at a URL. */
  function Visit(fetch: string -> Option<DetailPage>): string -> Detail {
    href => Details(DetailUrl(href), fetch(DetailUrl(href)))
  }

  /** Each collected contest comes from a detail URL under `/sub/`. */
  lemma PageContestsUnderSub(items: seq<ListItem>, fetch: string -> Option<DetailPage>)
    ensures forall r :: r in Contests(Pages(items, Visit(fetch))) ==> "site_url" in r && StartsWith(r["site_url"], Domain + "/sub/")
  {
    var hs, ds := Hrefs(items), Pages(items, Visit(fetch));
    ContestsFromPages(ds);
    forall r | r in Contests(ds)
      ensures "site_url" in r && StartsWith(r["site_url"], Domain + "/sub/")
    {
      var k :| 0 <= k < |ds| && ds[k].contest == Some(r);
      DetailsSpec(DetailUrl(hs[k]), fetch(DetailUrl(hs[k])));
      DetailUrlUnderSub(hs[k]);
    }
  }

  /** `get_contest_details`, appending its exclusion to `excluded`. */
  method GetContestDetails(url: string, page: Option<DetailPage>, excluded: ExcludedList) returns (contest: Option<Record>)
    modifies excluded
    ensures contest == Details(url, page).contest
    ensures excluded.items == old(excluded.items) + AsSeq(Details(url, page).exclusion)
  {
    var d := Details(url, page);
    excluded.Add(d.exclusion);
    contest := d.contest;
  }

  /** One turn of the list loop: follow the item's link when it has a usable `href`. */
  method FollowItem(item: ListItem, fetch: string -> Option<DetailPage>, excluded: ExcludedList) returns (found: seq<Record>)
    modifies excluded
    ensures found == Contests(Follow(item, Visit(fetch)))
    ensures excluded.items == old(excluded.items) + Exclusions(Follow(item, Visit(fetch)))
  {
    if item.href.Some? && item.href.value != "" {
      var url := DetailUrl(item.href.value);
      var contest := GetContestDetails(url, fetch(url), excluded);
      found := AsSeq(contest);
      ContestsSnoc([], Visit(fetch)(item.href.value));
    } else {
      found := [];
    }
  }

  /** `crawl_contest_korea` on one list page. */
  method CrawlContestKorea(items: seq<ListItem>, fetch: string -> Option<DetailPage>, excluded: ExcludedList)
    returns (contests: seq<Record>)
    modifies excluded
    ensures contests == Contests(Pages(items, Visit(fetch)))
    ensures excluded.items == old(excluded.items) + Exclusions(Pages(items, Visit(fetch)))
  {
    contests := [];
    ghost var visit := Visit(fetch);
    for i := 0 to |items|
      invariant contests == Contests(Pages(items[..i], visit))
      invariant excluded.items == old(excluded.items) + Exclusions(Pages(items[..i], visit))
    {
      var found := FollowItem(items[i], fetch, excluded);
      PagesContestsStep(items, visit, i);
      contests := contests + found;
    }
    assert items[..|items|] == items;
  }
}
