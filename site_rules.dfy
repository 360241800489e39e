/**
 * The rules the three site adapters under `jobs/crawling/` share once the text
 * of a page has been extracted: the `'N/A'` placeholder, the `start ~ end`
 * period split, tab removal, keyword eligibility, making a relative path
 * absolute, the contest and exclusion records, and the exclusion list the
 * adapters append to.
 */
module SiteRules {
  import opened Wrappers
  import opened Text
  import opened Records

  /** The placeholder the adapters store for a missing field. */
  const NA: string := "N/A"

  /** An extracted text, or `'N/A'` when its element was not found. */
  function OrNA(text: Option<string>): (r: string)
    ensures text.Some? ==> r == text.value
    ensures text.None? ==> r == NA
  {
    if text.Some? then text.value else NA
  }

  /**
   * Splitting a period text on `~`: the start is the stripped first piece, the
   * end the stripped second piece or `'N/A'` when there is none; a missing
   * period gives `'N/A'` for both.
   */
  function Period(date: string): (r: (string, string))
    ensures date == NA ==> r == (NA, NA)
  {
    if date == NA then (NA, NA)
    else
      var pieces := Split(date, '~');
      (Strip(pieces[0]), if |pieces| > 1 then Strip(pieces[1]) else NA)
  }

  /** A period without `~` is all start, with no end. */
  lemma PeriodWithoutTilde(date: string)
    requires date != NA && '~' !in date
    ensures Period(date) == (Strip(date), NA)
  {
    SplitNoSeparator(date, '~');
  }

  /** `a ~ b`: the start is `a` stripped, the end the part of `b` before any further `~`, stripped. */
  lemma PeriodWithTilde(a: string, b: string)
    requires '~' !in a
    ensures Period(a + "~" + b) == (Strip(a), Strip(Split(b, '~')[0]))
  {
    var date := a + "~" + b;
    assert date[|a|] == '~';
    assert date != NA by {
      assert '~' in date;
      assert forall i :: 0 <= i < |NA| ==> NA[i] != '~';
    }
    SplitAfterPiece(a, '~', b);
  }

  /** `s.replace('\t', '')`. */
  function WithoutTabs(s: string): (r: string)
    ensures '\t' !in r
    ensures |r| <= |s|
    ensures forall c :: c != '\t' ==> (c in r <==> c in s)
  {
    if s == [] then []
    else (if s[0] == '\t' then [] else [s[0]]) + WithoutTabs(s[1..])
  }

  /** A text without tabs is left as it is. */
  lemma {:induction false} WithoutTabsKeeps(s: string)
    requires '\t' !in s
    ensures WithoutTabs(s) == s
  {
    if s != [] {
      WithoutTabsKeeps(s[1..]);
      assert s == [s[0]] + s[1..];
    }
  }

  /** The target text of an adapter: `'N/A'` when missing, otherwise with its tabs removed. */
  function Target(text: Option<string>): (r: string)
    ensures '\t' !in r
  {
    var t := OrNA(text);
    if t != NA then WithoutTabs(t) else t
  }

  /** A target is eligible iff it is not `'N/A'` and contains one of the keywords. */
  predicate Eligible(target: string, keywords: seq<string>) {
    target != NA && ContainsAny(target, keywords)
  }

  /**
   * The poster URL: `'N/A'` for a missing or empty `src`, `prefix + src` for a
   * path starting with `/`, the `src` itself otherwise.
   */
  function PosterUrl(src: Option<string>, prefix: string): (r: string)
    ensures src.None? || src.value == "" ==> r == NA
    ensures src.Some? && src.value != "" && !StartsWith(src.value, "/") ==> r == src.value
    ensures src.Some? && StartsWith(src.value, "/") ==> r == prefix + src.value
  {
    var poster := if src.Some? && src.value != "" then src.value else NA;
    assert NA[0] != '/';
    if poster != NA && StartsWith(poster, "/") then prefix + poster else poster
  }

  /** The record an adapter collects for an eligible contest. */
  function ContestRecord(title: string, siteUrl: string, posterUrl: string, startDate: string, endDate: string): Record {
    map["title" := title, "site_url" := siteUrl, "poster_url" := posterUrl, "start_date" := startDate, "end_date" := endDate]
  }

  /** A contest record has exactly the five fields, holding the given values. */
  lemma ContestRecordFields(title: string, siteUrl: string, posterUrl: string, startDate: string, endDate: string)
    ensures var r := ContestRecord(title, siteUrl, posterUrl, startDate, endDate);
            r.Keys == {"title", "site_url", "poster_url", "start_date", "end_date"}
            && r["title"] == title && r["site_url"] == siteUrl && r["poster_url"] == posterUrl
            && r["start_date"] == startDate && r["end_date"] == endDate
  {
  }

  /** The record an adapter appends for a contest it leaves out, with the reason under `reasonKey`. */
  function ExclusionRecord(title: string, reasonKey: string, reason: string, siteUrl: string): Record {
    map["title" := title, reasonKey := reason, "site_url" := siteUrl]
  }

  /** A list item: the `href` of its detail link, `None` when there is no link or no `href`. */
  datatype ListItem = ListItem(href: Option<string>)

  /** An item whose `href` is present and non-empty, which the list loops follow. */
  predicate Usable(item: ListItem) {
    item.href.Some? && item.href.value != ""
  }

  /** The usable `href`s of a list page, in order. */
  function Hrefs(items: seq<ListItem>): seq<string> {
    if items == [] then []
    else Hrefs(items[..|items| - 1]) + if Usable(items[|items| - 1]) then [items[|items| - 1].href.value] else []
  }

  /** What one detail page yields: a contest, an exclusion, or neither. */
  datatype Detail = Detail(contest: Option<Record>, exclusion: Option<Record>)

  /** The detail pages a list page leads to, `visit` giving the outcome of each `href`. */
  function Pages(items: seq<ListItem>, visit: string -> Detail): seq<Detail> {
    MapSeq(visit, Hrefs(items))
  }

  /** One more list item adds its page iff it is usable. */
  lemma PagesStep(items: seq<ListItem>, visit: string -> Detail, i: nat)
    requires i < |items|
    ensures Pages(items[..i + 1], visit) == Pages(items[..i], visit) + if Usable(items[i]) then [visit(items[i].href.value)] else []
  {
    assert items[..i + 1][..i] == items[..i];
    var hs := Hrefs(items[..i]);
    if Usable(items[i]) {
      MapSeqAppend(visit, hs, [items[i].href.value]);
    } else {
      assert Hrefs(items[..i + 1]) == hs;
    }
  }

  function AsSeq<T>(o: Option<T>): seq<T> {
    if o.Some? then [o.value] else []
  }

  /** The contests of a run of detail pages, in order. */
  function Contests(ds: seq<Detail>): seq<Record> {
    if ds == [] then [] else Contests(ds[..|ds| - 1]) + AsSeq(ds[|ds| - 1].contest)
  }

  /** The exclusions of a run of detail pages, in order. */
  function Exclusions(ds: seq<Detail>): seq<Record> {
    if ds == [] then [] else Exclusions(ds[..|ds| - 1]) + AsSeq(ds[|ds| - 1].exclusion)
  }

  lemma ContestsSnoc(ds: seq<Detail>, d: Detail)
    ensures Contests(ds + [d]) == Contests(ds) + AsSeq(d.contest)
    ensures Exclusions(ds + [d]) == Exclusions(ds) + AsSeq(d.exclusion)
  {
    assert (ds + [d])[..|ds|] == ds;
  }

  /** The detail page one list item leads to, if any. */
  function Follow(item: ListItem, visit: string -> Detail): seq<Detail> {
    if Usable(item) then [visit(item.href.value)] else []
  }

  /** The pages, contests and exclusions of one more list item. */
  lemma PagesContestsStep(items: seq<ListItem>, visit: string -> Detail, i: nat)
    requires i < |items|
    ensures var step := Follow(items[i], visit);
            Contests(Pages(items[..i + 1], visit)) == Contests(Pages(items[..i], visit)) + Contests(step)
            && Exclusions(Pages(items[..i + 1], visit)) == Exclusions(Pages(items[..i], visit)) + Exclusions(step)
  {
    PagesStep(items, visit, i);
    var before, step := Pages(items[..i], visit), Follow(items[i], visit);
    assert Pages(items[..i + 1], visit) == before + step;
    ContestsAppend(before, step);
    ExclusionsAppend(before, step);
  }

  /** The contests of consecutive runs are those of each run, in order. */
  lemma {:induction false} ContestsAppend(a: seq<Detail>, b: seq<Detail>)
    ensures Contests(a + b) == Contests(a) + Contests(b)
    decreases |b|
  {
    if b == [] {
      assert a + b == a;
    } else {
      var init := b[..|b| - 1];
      assert (a + b)[..|a + b| - 1] == a + init;
      ContestsAppend(a, init);
    }
  }

  /** The exclusions of consecutive runs are those of each run, in order. */
  lemma {:induction false} ExclusionsAppend(a: seq<Detail>, b: seq<Detail>)
    ensures Exclusions(a + b) == Exclusions(a) + Exclusions(b)
    decreases |b|
  {
    if b == [] {
      assert a + b == a;
    } else {
      var init := b[..|b| - 1];
      assert (a + b)[..|a + b| - 1] == a + init;
      ExclusionsAppend(a, init);
    }
  }

  /** A detail page that yields at most one of the two. */
  predicate AtMostOne(d: Detail) {
    !(d.contest.Some? && d.exclusion.Some?)
  }

  /** How many pages of a run yield a contest or an exclusion. */
  function Yielding(ds: seq<Detail>): nat {
    if ds == [] then 0
    else Yielding(ds[..|ds| - 1]) + if ds[|ds| - 1].contest.Some? || ds[|ds| - 1].exclusion.Some? then 1 else 0
  }

  /** When no page yields both, the contests and exclusions together are as many as the pages that yield something. */
  lemma {:induction false} ContestsExclusionsCount(ds: seq<Detail>)
    requires forall k :: 0 <= k < |ds| ==> AtMostOne(ds[k])
    ensures |Contests(ds)| + |Exclusions(ds)| == Yielding(ds)
  {
    if ds != [] {
      var init := ds[..|ds| - 1];
      assert forall k :: 0 <= k < |init| ==> init[k] == ds[k];
      ContestsExclusionsCount(init);
      assert AtMostOne(ds[|ds| - 1]);
    }
  }

  /**
   * When no detail page can yield both a contest and an exclusion, no page
   * of a list is both collected and excluded: the two lists together count
   * the pages that yield something.
   */
  lemma PagesPartition(items: seq<ListItem>, visit: string -> Detail)
    requires forall h :: AtMostOne(visit(h))
    ensures var ds := Pages(items, visit);
            |Contests(ds)| + |Exclusions(ds)| == Yielding(ds)
  {
    var hs, ds := Hrefs(items), Pages(items, visit);
    assert forall k :: 0 <= k < |ds| ==> ds[k] == visit(hs[k]);
    ContestsExclusionsCount(ds);
  }

  /** Every contest of a run comes from some page of it. */
  lemma {:induction false} ContestsFromPages(ds: seq<Detail>)
    ensures forall r :: r in Contests(ds) ==> exists k :: 0 <= k < |ds| && ds[k].contest == Some(r)
  {
    if ds != [] {
      var init := ds[..|ds| - 1];
      ContestsFromPages(init);
      assert forall k :: 0 <= k < |init| ==> init[k] == ds[k];
    }
  }

  /** The `excluded_contests` list an adapter appends to in place. */
  class ExcludedList {
    var items: seq<Record>

    constructor ()
      ensures items == []
    {
      items := [];
    }

    /** `excluded_contests.append(...)`, when there is an exclusion. */
    method Add(r: Option<Record>)
      modifies this
      ensures items == old(items) + AsSeq(r)
    {
      if r.Some? {
        items := items + [r.value];
      }
    }
  }
}
