/**
 * The linkareer adapter, `jobs/crawling/linkareer.py`, after the text of its
 * pages has been extracted: the detail URL of each list item, the eligibility
 * of a contest by its target text, and the record or exclusion a detail page
 * yields.
 */
module Linkareer {
  import opened Wrappers
  import opened Text
  import opened Records
  import opened SiteRules

  const Domain: string := "https://linkareer.com"

  /** The targets a contest must mention to be collected. */
  const EligibleKeywords: seq<string> := ["대학생", "대학원생", "일반인", "누구나", "대상 제한 없음"]

  /** The extracted texts of a detail page; `None` where the selector found nothing. */
  datatype DetailPage = DetailPage(title: Option<string>, target: Option<string>, posterSrc: Option<string>,
                                   startDate: Option<string>, endDate: Option<string>)

  /** The detail URL of a list `href`: a path is put under the domain, anything else is used as it is. */
  function DetailUrl(href: string): string {
    if StartsWith(href, "/") then Domain + href else href
  }

  /** A poster path is appended to the domain and a slash, so the path's own slash is doubled. */
  lemma PosterPathDoubled(path: string)
    requires StartsWith(path, "/")
    ensures PosterUrl(Some(path), Domain + "/") == Domain + "//" + path[1..]
  {
    assert path == "/" + path[1..];
  }

  /**
   * `get_contest_details(url)` on a parsed page, or when the request or the
   * parsing raised (`None`). The exclusion is decided before the poster and the
   * dates are read.
   */
  function Details(url: string, page: Option<DetailPage>): Detail {
    if page.None? then Detail(None, None)
    else
      var p := page.value;
      var title, target := OrNA(p.title), Target(p.target);
      if !Eligible(target, EligibleKeywords) then Detail(None, Some(ExclusionRecord(title, "대상", target, url)))
      else Detail(Some(ContestRecord(title, url, PosterUrl(p.posterSrc, Domain + "/"), OrNA(p.startDate), OrNA(p.endDate))), None)
  }

  /**
   * A parsed page yields a contest iff its target mentions an eligible keyword,
   * and otherwise exactly one exclusion naming its title, target and URL,
   * whatever its poster and dates; a failure yields neither.
   */
  lemma DetailsSpec(url: string, page: Option<DetailPage>)
    ensures AtMostOne(Details(url, page))
    ensures page.None? ==> Details(url, page) == Detail(None, None)
    ensures page.Some? ==>
              (Details(url, page).contest.Some? <==>
                 Target(page.value.target) != NA && exists k :: 0 <= k < |EligibleKeywords| && Contains(Target(page.value.target), EligibleKeywords[k]))
    ensures page.Some? && Details(url, page).contest.None? ==>
              Details(url, page).exclusion == Some(map["title" := OrNA(page.value.title), "대상" := Target(page.value.target), "site_url" := url])
              && forall poster, s, e :: Details(url, Some(page.value.(posterSrc := poster, startDate := s, endDate := e))) == Details(url, page)
    ensures Details(url, page).contest.Some? ==>
              var r := Details(url, page).contest.value;
              r["site_url"] == url && r["title"] == OrNA(page.value.title)
              && r["start_date"] == OrNA(page.value.startDate) && r["end_date"] == OrNA(page.value.endDate)
  {
  }

  /** The outcome of following one list `href`, `fetch` giving the parsed page at a URL. */
  function Visit(fetch: string -> Option<DetailPage>): string -> Detail {
    href => Details(DetailUrl(href), fetch(DetailUrl(href)))
  }

  /** `get_contest_details`, appending its exclusion to `excluded`. */
  method GetContestDetails(url: string, page: Option<DetailPage>, excluded: ExcludedList) returns (contest: Option<Record>)
    modifies excluded
    ensures contest == Details(url, page).contest
    ensures excluded.items == old(excluded.items) + AsSeq(Details(url, page).exclusion)
  {
    var d := Details(url, page);
    excluded.Add(d.exclusion);
    contest := d.contest;
  }

  /** One turn of the list loop: follow the item's link when it has a usable `href`. */
  method FollowItem(item: ListItem, fetch: string -> Option<DetailPage>, excluded: ExcludedList) returns (found: seq<Record>)
    modifies excluded
    ensures found == Contests(Follow(item, Visit(fetch)))
    ensures excluded.items == old(excluded.items) + Exclusions(Follow(item, Visit(fetch)))
  {
    if item.href.Some? && item.href.value != "" {
      var url := DetailUrl(item.href.value);
      var contest := GetContestDetails(url, fetch(url), excluded);
      found := AsSeq(contest);
      ContestsSnoc([], Visit(fetch)(item.href.value));
    } else {
      found := [];
    }
  }

  /** `crawl_linkareer` on one list page. */
  method CrawlLinkareer(items: seq<ListItem>, fetch: string -> Option<DetailPage>, excluded: ExcludedList)
    returns (contests: seq<Record>)
    modifies excluded
    ensures contests == Contests(Pages(items, Visit(fetch)))
    ensures excluded.items == old(excluded.items) + Exclusions(Pages(items, Visit(fetch)))
  {
    contests := [];
    ghost var visit := Visit(fetch);
    for i := 0 to |items|
      invariant contests == Contests(Pages(items[..i], visit))
      invariant excluded.items == old(excluded.items) + Exclusions(Pages(items[..i], visit))
    {
      var found := FollowItem(items[i], fetch, excluded);
      PagesContestsStep(items, visit, i);
      contests := contests + found;
    }
    assert items[..|items|] == items;
  }
}
