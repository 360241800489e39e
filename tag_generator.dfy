/**
 * The poster tagger: image sizing, the image cache, one analysis of a poster,
 * the retry loop around it, the batch save that turns tagged contests into
 * database rows, and the resumable loop over `all_contests.json`.
 *
 * The vision model, the HTTP download and the image codec are parameters:
 * `fetchImage` is everything `download_and_encode_image` does after its cache
 * lookup (download, resize, JPEG encoding), and `model(image, title, attempt)` is
 * the reply of the model to the `attempt`-th question about one poster.
 */
module TagGenerator {
  import opened Wrappers
  import opened Text
  import opened Records
  import opened Dates
  import opened Keywords

  /* ----------------------------------------------------------- image sizing */

  const MinSide := 400
  const MaxSide := 1200

  function Min(a: nat, b: nat): nat { if a <= b then a else b }

  /**
   * `get_optimal_size` on exact rationals: an image with a side under 400 is
   * scaled up by `400 / min(w, h)`, one with a side over 1200 is scaled down so
   * that its longer side (its height on a tie) is 1200, anything else is kept.
   * A zero side is the division by zero the caller turns into a failed download.
   * The source multiplies and truncates floats, which can land one pixel below
   * these exact sizes (97 x 97 becomes 399 x 399 there).
   */
  function OptimalSize(w: nat, h: nat): (r: Option<(nat, nat)>)
  {
    if w < MinSide || h < MinSide then
      if w == 0 || h == 0 then None
      else Some((w * MinSide / Min(w, h), h * MinSide / Min(w, h)))
    else if w > MaxSide || h > MaxSide then
      if w > h then Some((MaxSide, h * MaxSide / w)) else Some((w * MaxSide / h, MaxSide))
    else Some((w, h))
  }

  lemma DivAtLeast(a: nat, b: nat, m: nat)
    requires m > 0 && a >= b * m
    ensures a / m >= b
  {
    assert a == m * (a / m) + a % m;
    assert m * (a / m) > m * (b - 1);
  }

  lemma DivAtMost(a: nat, b: nat, m: nat)
    requires m > 0 && a <= b * m
    ensures a / m <= b
  {
    assert a == m * (a / m) + a % m;
    assert m * (a / m) <= m * b;
  }

  /** A side of zero makes the sizing fail. */
  lemma OptimalSizeZero(w: nat, h: nat)
    requires w == 0 || h == 0
    ensures OptimalSize(w, h).None?
  {
  }

  /** A small image comes out with its shorter side exactly 400 and both sides at least 400. */
  lemma OptimalSizeUpscales(w: nat, h: nat)
    requires 0 < w && 0 < h && (w < MinSide || h < MinSide)
    ensures OptimalSize(w, h).Some?
    ensures Min(OptimalSize(w, h).value.0, OptimalSize(w, h).value.1) == MinSide
    ensures OptimalSize(w, h).value.0 >= MinSide && OptimalSize(w, h).value.1 >= MinSide
  {
    var m := Min(w, h);
    DivAtLeast(w * MinSide, MinSide, m);
    DivAtLeast(h * MinSide, MinSide, m);
    DivAtMost(m * MinSide, MinSide, m);
  }

  /** A large image comes out with its longer side exactly 1200 and no side over 1200. */
  lemma OptimalSizeDownscales(w: nat, h: nat)
    requires w >= MinSide && h >= MinSide && (w > MaxSide || h > MaxSide)
    ensures OptimalSize(w, h).Some?
    ensures OptimalSize(w, h).value.0 <= MaxSide && OptimalSize(w, h).value.1 <= MaxSide
    ensures (if w > h then OptimalSize(w, h).value.0 else OptimalSize(w, h).value.1) == MaxSide
  {
    if w > h {
      DivAtMost(h * MaxSide, MaxSide, w);
    } else {
      DivAtMost(w * MaxSide, MaxSide, h);
    }
  }

  /** Sizes between 400 and 1200 on both sides are left alone. */
  lemma OptimalSizeKeeps(w: nat, h: nat)
    requires MinSide <= w <= MaxSide && MinSide <= h <= MaxSide
    ensures OptimalSize(w, h) == Some((w, h))
  {
  }

  /* --------------------------------------------------------------- analysis */

  /** What `ollama.generate` gave back: a reply with a `response` key, one without, or an exception. */
  datatype Reply = Answer(text: string) | NoResponseKey | Failure(message: string)

  /** `analyze_image` on one reply of the model. */
  function AnalyzeImage(reply: Reply, title: string): string {
    match reply
    case Answer(text) => FixKeywords(Strip(text), title)
    case NoResponseKey => NoResponse
    case Failure(message) => AnalysisError + ": " + message
  }

  /**
   * The loop of `analyze_image_with_retry` on its per-attempt analyses: from
   * attempt `a` on, the first answer `valid` accepts, or `fallback` once the
   * last attempt has been refused too.
   */
  function FirstAccepted(answers: nat -> string, valid: string -> bool, fallback: string, a: nat, last: nat): string
    requires a <= last
    decreases last - a
  {
    if valid(answers(a)) then answers(a)
    else if a < last then FirstAccepted(answers, valid, fallback, a + 1, last)
    else fallback
  }

  /** The analysis of each attempt's reply. */
  function Analyses(ask: nat -> Reply, title: string): nat -> string {
    (a: nat) => AnalyzeImage(ask(a), title)
  }

  /** `analyze_image_with_retry`: `분석 실패` only when no attempt is made at all. */
  function RetryResult(ask: nat -> Reply, title: string, maxRetries: int): string {
    if maxRetries < 0 then AnalysisFailed
    else FirstAccepted(Analyses(ask, title), IsValidResult, FallbackKeywords(title), 0, maxRetries)
  }

  lemma {:induction false} FirstAcceptedIsFirst(answers: nat -> string, valid: string -> bool, fallback: string, a: nat, last: nat, k: nat)
    requires a <= k <= last && valid(answers(k))
    requires forall j :: a <= j < k ==> !valid(answers(j))
    ensures FirstAccepted(answers, valid, fallback, a, last) == answers(k)
    decreases k - a
  {
    if a < k {
      FirstAcceptedIsFirst(answers, valid, fallback, a + 1, last, k);
    }
  }

  lemma {:induction false} FirstAcceptedExhausted(answers: nat -> string, valid: string -> bool, fallback: string, a: nat, last: nat)
    requires a <= last
    requires forall j :: a <= j <= last ==> !valid(answers(j))
    ensures FirstAccepted(answers, valid, fallback, a, last) == fallback
    decreases last - a
  {
    if a < last {
      FirstAcceptedExhausted(answers, valid, fallback, a + 1, last);
    }
  }

  lemma {:induction false} FirstAcceptedOutcome(answers: nat -> string, valid: string -> bool, fallback: string, a: nat, last: nat)
    requires a <= last
    ensures valid(FirstAccepted(answers, valid, fallback, a, last)) || FirstAccepted(answers, valid, fallback, a, last) == fallback
    decreases last - a
  {
    if a < last {
      FirstAcceptedOutcome(answers, valid, fallback, a + 1, last);
    }
  }

  lemma AnalysesAgree(ask: nat -> Reply, title: string)
    ensures forall j: nat :: Analyses(ask, title)(j) == AnalyzeImage(ask(j), title)
  {
  }

  /** When every one of the `maxRetries + 1` attempts is invalid the answer is the fallback. */
  lemma RetryExhausted(ask: nat -> Reply, title: string, maxRetries: int)
    requires maxRetries >= 0
    requires forall j :: 0 <= j <= maxRetries ==> !IsValidResult(AnalyzeImage(ask(j), title))
    ensures RetryResult(ask, title, maxRetries) == FallbackKeywords(title)
  {
    var answers := Analyses(ask, title);
    AnalysesAgree(ask, title);
    FirstAcceptedExhausted(answers, IsValidResult, FallbackKeywords(title), 0, maxRetries);
  }

  /** With at least one attempt the answer is a valid analysis or the fallback, never an error text. */
  lemma RetryOutcome(ask: nat -> Reply, title: string, maxRetries: int)
    requires maxRetries >= 0
    ensures IsValidResult(RetryResult(ask, title, maxRetries)) || RetryResult(ask, title, maxRetries) == FallbackKeywords(title)
  {
    FirstAcceptedOutcome(Analyses(ask, title), IsValidResult, FallbackKeywords(title), 0, maxRetries);
  }

  /* ------------------------------------------------------------ saving rows */

  /** The columns the duplicate check looks at: `poster_img_url` and `contest_url`. */
  datatype Row = Row(poster: string, site: string)

  /** The `contest`, `tag` and `filter` tables as far as this job touches them. */
  datatype Db = Db(rows: set<Row>, tags: set<string>, filters: set<string>)

  const NoPoster := "포스터 없음"
  const DownloadFailed := "이미지 다운로드 실패"
  const Placeholders: seq<string> := [NoPoster, DownloadFailed]

  /** `parse_date_maybe`: `%Y-%m-%d`, `%Y.%m.%d`, `%Y/%m/%d`, `%Y년 %m월 %d일`, `%Y년%m월%d일`. */
  const DbDateLayouts: seq<Layout> :=
    [Layout("-", "-", ""), Layout(".", ".", ""), Layout("/", "/", ""), Layout("년 ", "월 ", "일"), Layout("년", "월", "일")]

  function ParseDateMaybe(s: string): (r: Option<Date>)
    ensures r.Some? ==> ValidDate(r.value) && exists k :: 0 <= k < |DbDateLayouts| && s == Format(r.value, DbDateLayouts[k])
    ensures s == "N/A" ==> r.None?
  {
    if s == "" || s == "N/A" then None
    else
      FirstParseFormat(s, DbDateLayouts);
      FirstParse(s, DbDateLayouts)
  }

  /** Every rendering of a valid date in the five layouts is read back as that date. */
  lemma ParseDateMaybeFormat(d: Date, k: nat)
    requires ValidDate(d) && k < |DbDateLayouts|
    ensures ParseDateMaybe(Format(d, DbDateLayouts[k])) == Some(d)
  {
    var s := Format(d, DbDateLayouts[k]);
    var l := DbDateLayouts[k];
    assert s[4] == l.afterYear[0];
    forall j | 0 <= j < k ensures Parse(s, DbDateLayouts[j]).None? {
      if k < 3 {
        assert s[4..5] != DbDateLayouts[j].afterYear;
      } else {
        assert |s| != LayoutLength(DbDateLayouts[j]);
      }
    }
    ParseFormat(d, l);
    FirstParseSkips(s, DbDateLayouts, k);
    assert s != "" && s != "N/A";
  }

  /** The row a contest would become, when its title, links and both dates are usable. */
  function CandidateRow(c: Record): Option<Row> {
    var title := Strip(GetOr(c, "title", ""));
    var site := Strip(GetOr(c, "site_url", ""));
    var poster := Strip(GetOr(c, "poster_url", ""));
    if title == "" || site == "" || poster == ""
       || ParseDateMaybe(GetOr(c, "start_date", "")).None?
       || ParseDateMaybe(GetOr(c, "end_date", "")).None?
    then None
    else Some(Row(poster, site))
  }

  /** The duplicate query: a stored row with the same poster or the same site. */
  predicate Clashes(rows: set<Row>, r: Row) {
    exists q :: q in rows && (q.poster == r.poster || q.site == r.site)
  }

  /** The tag names a contest's `tags` field creates. */
  function TagNames(tags: string): set<string> {
    if tags == "" || tags in Placeholders then {} else set t | t in Tokens(tags)
  }

  /** The filter name a contest's `filtering` field creates. */
  function FilterNames(filtering: string): set<string> {
    if filtering == "" || filtering in Placeholders then {} else {filtering}
  }

  /** What one contest offers the tables: its row, when usable, and its tag and filter names. */
  datatype Offer = Offer(row: Option<Row>, tags: set<string>, filters: set<string>)

  function OfferOf(c: Record): Offer {
    Offer(CandidateRow(c), TagNames(GetOr(c, "tags", "")), FilterNames(GetOr(c, "filtering", "")))
  }

  function Offers(batch: seq<Record>): (os: seq<Offer>)
    ensures |os| == |batch| && forall k :: 0 <= k < |batch| ==> os[k] == OfferOf(batch[k])
  {
    MapSeq(OfferOf, batch)
  }

  lemma OffersAppend(a: seq<Record>, b: seq<Record>)
    ensures Offers(a + b) == Offers(a) + Offers(b)
  {
    MapSeqAppend(OfferOf, a, b);
  }

  /** One contest of `save_contests_to_db`: inserted with its tags and filter, or skipped. */
  function Admit(db: Db, o: Offer): (Db, bool) {
    match o.row
    case None => (db, false)
    case Some(r) =>
      if Clashes(db.rows, r) then (db, false)
      else (Db(db.rows + {r}, db.tags + o.tags, db.filters + o.filters), true)
  }

  /** The tables after the offers were tried in order. */
  function DbRun(db: Db, os: seq<Offer>): Db {
    if os == [] then db else Admit(DbRun(db, os[..|os| - 1]), os[|os| - 1]).0
  }

  /** How many of the offers were inserted. */
  function Inserted(db: Db, os: seq<Offer>): (n: nat)
    ensures n <= |os|
  {
    if os == [] then 0
    else Inserted(db, os[..|os| - 1]) + (if Admit(DbRun(db, os[..|os| - 1]), os[|os| - 1]).1 then 1 else 0)
  }

  /** No two stored contests share a poster or a site. */
  predicate Unshared(rows: set<Row>) {
    forall p, q :: p in rows && q in rows && p != q ==> p.poster != q.poster && p.site != q.site
  }

  /** Saving keeps the stored contests free of shared posters and sites. */
  lemma {:induction false} DbRunUnshared(db: Db, os: seq<Offer>)
    requires Unshared(db.rows)
    ensures Unshared(DbRun(db, os).rows)
  {
    if os != [] {
      var init := os[..|os| - 1];
      DbRunUnshared(db, init);
      var before := DbRun(db, init);
      var o := os[|os| - 1];
      if o.row.Some? && !Clashes(before.rows, o.row.value) {
        var r := o.row.value;
        forall p, q | p in before.rows + {r} && q in before.rows + {r} && p != q
          ensures p.poster != q.poster && p.site != q.site
        {
          if p == r {
            assert !(q.poster == r.poster || q.site == r.site);
          } else if q == r {
            assert !(p.poster == r.poster || p.site == r.site);
          }
        }
      }
    }
  }

  /** Rows, tags and filters are only ever added, one row per inserted contest. */
  lemma {:induction false} DbRunCounts(db: Db, os: seq<Offer>)
    ensures db.rows <= DbRun(db, os).rows
    ensures db.tags <= DbRun(db, os).tags && db.filters <= DbRun(db, os).filters
    ensures |DbRun(db, os).rows| == |db.rows| + Inserted(db, os)
  {
    if os != [] {
      var init := os[..|os| - 1];
      DbRunCounts(db, init);
      var before := DbRun(db, init);
      var o := os[|os| - 1];
      if o.row.Some? && !Clashes(before.rows, o.row.value) {
        assert o.row.value !in before.rows;
      }
    }
  }

  /**
   * After a save every usable offer is represented: a stored row shares its
   * poster or its site (it is that row, or it was a duplicate of one).
   */
  lemma {:induction false} DbRunCovers(db: Db, os: seq<Offer>, i: nat)
    requires i < |os| && os[i].row.Some?
    ensures Clashes(DbRun(db, os).rows, os[i].row.value)
  {
    var init := os[..|os| - 1];
    var before := DbRun(db, init);
    var r := os[i].row.value;
    DbRunCounts(before, [os[|os| - 1]]);
    assert DbRun(before, [os[|os| - 1]]) == DbRun(db, os) by {
      assert [os[|os| - 1]][..0] == [];
    }
    if i < |os| - 1 {
      assert init[i] == os[i];
      DbRunCovers(db, init, i);
      var q :| q in before.rows && (q.poster == r.poster || q.site == r.site);
      assert q in DbRun(db, os).rows;
    } else if !Clashes(before.rows, r) {
      assert r in DbRun(db, os).rows;
    } else {
      var q :| q in before.rows && (q.poster == r.poster || q.site == r.site);
      assert q in DbRun(db, os).rows;
    }
  }

  lemma DbRunStep(db: Db, os: seq<Offer>, i: nat)
    requires i < |os|
    ensures DbRun(db, os[..i + 1]) == Admit(DbRun(db, os[..i]), os[i]).0
    ensures Inserted(db, os[..i + 1]) == Inserted(db, os[..i]) + if Admit(DbRun(db, os[..i]), os[i]).1 then 1 else 0
  {
    assert os[..i + 1][..i] == os[..i];
  }

  /** Saving `a` and then `b` leaves the tables as saving `a + b` at once. */
  lemma {:induction false} DbRunAppend(db: Db, a: seq<Offer>, b: seq<Offer>)
    ensures DbRun(db, a + b) == DbRun(DbRun(db, a), b)
    decreases |b|
  {
    if b == [] {
      assert a + b == a;
    } else {
      var b' := b[..|b| - 1];
      assert (a + b)[..|a + b| - 1] == a + b';
      assert (a + b)[|a + b| - 1] == b[|b| - 1];
      DbRunAppend(db, a, b');
    }
  }

  /* ---------------------------------------------------------- tagging loop */

  const NoTitle := "제목 없음"

  /** The entry written for one contest: `tags` and `filtering` set, `source` removed. */
  function Tagged(c: Record, tags: string, filtering: string): Record {
    c["tags" := tags]["filtering" := filtering] - {"source"}
  }

  /** Whether a contest reaches the model: it has a poster link and the image could be fetched. */
  predicate ReachesModel(c: Record, fetchImage: string -> Option<string>) {
    var poster := GetOr(c, "poster_url", "");
    poster != "N/A" && poster != "" && fetchImage(poster).Some?
  }

  /** The tags and filter the model path writes for a retried answer `tags`. */
  function ModelTags(tags: string, title: string): (r: (string, string))
    ensures r.1 == FilteringTagFromTitle(title) || r.1 == Idea
    ensures |Split(tags, ',')| >= 4 ==> r.1 == FilteringTagFromTitle(title)
    ensures |Split(tags, ',')| < 4 ==> r.1 == Idea
  {
    var parts := Split(tags, ',');
    if |parts| >= 4 then (Join(CleanAll(StripAll(parts[..|parts| - 1])), ","), FilteringTagFromTitle(title))
    else (CleanKeywordsString(tags), Idea)
  }

  /** The model's reply to each attempt at one poster. */
  function AskAbout(model: (string, string, nat) -> Reply, image: string, title: string): nat -> Reply {
    (a: nat) => model(image, title, a)
  }

  /** The `tags` and `filtering` values written for a contest. */
  function EntryTags(c: Record, fetchImage: string -> Option<string>, model: (string, string, nat) -> Reply): (string, string) {
    var title := GetOr(c, "title", NoTitle);
    var poster := GetOr(c, "poster_url", "");
    if poster == "N/A" || poster == "" then (NoPoster, FilteringTagFromTitle(title))
    else match fetchImage(poster)
      case None => (DownloadFailed, FilteringTagFromTitle(title))
      case Some(image) => ModelTags(RetryResult(AskAbout(model, image, title), title, 2), title)
  }

  /** A contest that reaches the model is tagged from the retried answer about its image. */
  lemma EntryTagsByModel(c: Record, fetchImage: string -> Option<string>, model: (string, string, nat) -> Reply)
    requires ReachesModel(c, fetchImage)
    ensures var title := GetOr(c, "title", NoTitle);
            var image := fetchImage(GetOr(c, "poster_url", "")).value;
            EntryTags(c, fetchImage, model) == ModelTags(RetryResult(AskAbout(model, image, title), title, 2), title)
  {
  }

  /** A contest whose poster could not be fetched keeps the title's filter and the download-failure tag. */
  lemma EntryTagsNoImage(c: Record, fetchImage: string -> Option<string>, model: (string, string, nat) -> Reply)
    requires GetOr(c, "poster_url", "") != "N/A" && GetOr(c, "poster_url", "") != ""
    requires fetchImage(GetOr(c, "poster_url", "")).None?
    ensures EntryTags(c, fetchImage, model) == (DownloadFailed, FilteringTagFromTitle(GetOr(c, "title", NoTitle)))
  {
  }

  lemma TagEntryFrom(c: Record, fetchImage: string -> Option<string>, model: (string, string, nat) -> Reply, t: (string, string))
    requires EntryTags(c, fetchImage, model) == t
    ensures TagEntry(c, fetchImage, model) == Tagged(c, t.0, t.1)
  {
  }

  /**
   * The filter written for a contest is one of the six categories: the title's,
   * unless the model's answer had fewer than four parts, which gives `아이디어`.
   * A contest without a poster link is tagged `포스터 없음`.
   */
  lemma EntryTagsShape(c: Record, fetchImage: string -> Option<string>, model: (string, string, nat) -> Reply)
    ensures EntryTags(c, fetchImage, model).1 in ValidCategories
    ensures EntryTags(c, fetchImage, model).1 == FilteringTagFromTitle(GetOr(c, "title", NoTitle))
         || EntryTags(c, fetchImage, model).1 == Idea
    ensures !ReachesModel(c, fetchImage) ==> EntryTags(c, fetchImage, model).1 == FilteringTagFromTitle(GetOr(c, "title", NoTitle))
    ensures GetOr(c, "poster_url", "") in ["", "N/A"] ==> EntryTags(c, fetchImage, model).0 == NoPoster
  {
    var title := GetOr(c, "title", NoTitle);
    var poster := GetOr(c, "poster_url", "");
    var t := EntryTags(c, fetchImage, model);
    if poster == "N/A" || poster == "" {
      assert t == (NoPoster, FilteringTagFromTitle(title));
    } else if fetchImage(poster).None? {
      assert t == (DownloadFailed, FilteringTagFromTitle(title));
    } else {
      var r := RetryResult(AskAbout(model, fetchImage(poster).value, title), title, 2);
      assert t == ModelTags(r, title);
      assert ReachesModel(c, fetchImage);
      ModelTagsShape(r, title);
    }
  }

  lemma ModelTagsShape(tags: string, title: string)
    ensures ModelTags(tags, title).1 in ValidCategories
  {
    assert Idea in ValidCategories;
  }

  /** The entry `extract_tags_from_final_contest` appends for a contest it has not seen before. */
  function TagEntry(c: Record, fetchImage: string -> Option<string>, model: (string, string, nat) -> Reply): Record {
    var t := EntryTags(c, fetchImage, model);
    Tagged(c, t.0, t.1)
  }

  /** The entries `entry` makes for `contests`, skipping those whose title was already processed. */
  function Unseen(contests: seq<Record>, done: set<string>, entry: Record -> Record): seq<Record> {
    if contests == [] then []
    else
      var init := Unseen(contests[..|contests| - 1], done, entry);
      var c := contests[|contests| - 1];
      if GetOr(c, "title", NoTitle) in done then init else init + [entry(c)]
  }

  /** The entry of each contest. */
  function Entries(fetchImage: string -> Option<string>, model: (string, string, nat) -> Reply): Record -> Record {
    (c: Record) => TagEntry(c, fetchImage, model)
  }

  /** The entries appended for `contests`, skipping those whose title was already processed. */
  function TagAll(contests: seq<Record>, done: set<string>, fetchImage: string -> Option<string>, model: (string, string, nat) -> Reply): seq<Record> {
    Unseen(contests, done, Entries(fetchImage, model))
  }

  /** `processed_titles`: the titles already present in the output file. */
  function TitlesOf(results: seq<Record>): set<string> {
    set k, r | 0 <= k < |results| && r == results[k] && "title" in r :: r["title"]
  }

  /** A written entry keeps the contest's other fields, carries its tags and filter, and drops `source`. */
  lemma TaggedShape(c: Record, tags: string, filtering: string)
    ensures var e := Tagged(c, tags, filtering);
      "tags" in e && e["tags"] == tags && "filtering" in e && e["filtering"] == filtering && "source" !in e
      && forall k :: k in c && k != "tags" && k != "filtering" && k != "source" ==> k in e && e[k] == c[k]
  {
  }

  /** Every entry that is written has a filter among the six categories. */
  lemma TagEntryShape(c: Record, fetchImage: string -> Option<string>, model: (string, string, nat) -> Reply)
    ensures "source" !in TagEntry(c, fetchImage, model) && "filtering" in TagEntry(c, fetchImage, model)
    ensures TagEntry(c, fetchImage, model)["filtering"] in ValidCategories
    ensures "title" in c ==> "title" in TagEntry(c, fetchImage, model) && TagEntry(c, fetchImage, model)["title"] == c["title"]
  {
    var t := EntryTags(c, fetchImage, model);
    EntryTagsShape(c, fetchImage, model);
    TaggedShape(c, t.0, t.1);
  }

  /** The entries made are those of the unseen contests, one each. */
  lemma {:induction false} UnseenMembers(contests: seq<Record>, done: set<string>, entry: Record -> Record)
    ensures |Unseen(contests, done, entry)| <= |contests|
    ensures forall e :: e in Unseen(contests, done, entry) ==>
      exists c :: c in contests && GetOr(c, "title", NoTitle) !in done && e == entry(c)
    ensures forall c :: c in contests && GetOr(c, "title", NoTitle) !in done ==> entry(c) in Unseen(contests, done, entry)
  {
    if contests != [] {
      var init := contests[..|contests| - 1];
      UnseenMembers(init, done, entry);
      assert contests == init + [contests[|contests| - 1]];
    }
  }

  lemma EntriesAgree(fetchImage: string -> Option<string>, model: (string, string, nat) -> Reply)
    ensures forall c :: Entries(fetchImage, model)(c) == TagEntry(c, fetchImage, model)
  {
  }

  /** The entries appended are those of the unseen contests, one entry each. */
  lemma TagAllMembers(contests: seq<Record>, done: set<string>, fetchImage: string -> Option<string>, model: (string, string, nat) -> Reply)
    ensures |TagAll(contests, done, fetchImage, model)| <= |contests|
    ensures forall e :: e in TagAll(contests, done, fetchImage, model) ==>
      exists c :: c in contests && GetOr(c, "title", NoTitle) !in done && e == TagEntry(c, fetchImage, model)
    ensures forall c :: c in contests && GetOr(c, "title", NoTitle) !in done ==> TagEntry(c, fetchImage, model) in TagAll(contests, done, fetchImage, model)
  {
    UnseenMembers(contests, done, Entries(fetchImage, model));
    EntriesAgree(fetchImage, model);
  }

  lemma TitlesOfAppend(a: seq<Record>, b: seq<Record>)
    ensures TitlesOf(a + b) == TitlesOf(a) + TitlesOf(b)
  {
    forall t | t in TitlesOf(a + b) ensures t in TitlesOf(a) + TitlesOf(b) {
      var k :| 0 <= k < |a + b| && "title" in (a + b)[k] && (a + b)[k]["title"] == t;
      if k < |a| {
        assert a[k] == (a + b)[k];
      } else {
        assert b[k - |a|] == (a + b)[k];
      }
    }
    forall t | t in TitlesOf(a) + TitlesOf(b) ensures t in TitlesOf(a + b) {
      if t in TitlesOf(a) {
        var k :| 0 <= k < |a| && "title" in a[k] && a[k]["title"] == t;
        assert (a + b)[k] == a[k];
      } else {
        var k :| 0 <= k < |b| && "title" in b[k] && b[k]["title"] == t;
        assert (a + b)[|a| + k] == b[k];
      }
    }
  }

  /**
   * Resuming from a finished run does nothing more: when every contest carries a
   * title, a second pass over the output of the first appends no entry.
   */
  lemma {:induction false} ResumeIsIdempotent(contests: seq<Record>, previous: seq<Record>, fetchImage: string -> Option<string>, model: (string, string, nat) -> Reply)
    requires forall k :: 0 <= k < |contests| ==> "title" in contests[k]
    ensures var first := previous + TagAll(contests, TitlesOf(previous), fetchImage, model);
            TagAll(contests, TitlesOf(first), fetchImage, model) == []
  {
    var done := TitlesOf(previous);
    var appended := TagAll(contests, done, fetchImage, model);
    TitlesOfAppend(previous, appended);
    TagAllMembers(contests, done, fetchImage, model);
    forall k | 0 <= k < |contests| ensures GetOr(contests[k], "title", NoTitle) in TitlesOf(previous + appended) {
      var c := contests[k];
      if c["title"] !in done {
        var e := TagEntry(c, fetchImage, model);
        TagEntryShape(c, fetchImage, model);
        var j :| 0 <= j < |appended| && appended[j] == e;
        assert c["title"] in TitlesOf(appended);
      }
    }
    SkipsAll(contests, TitlesOf(previous + appended), Entries(fetchImage, model));
  }

  lemma {:induction false} SkipsAll(contests: seq<Record>, done: set<string>, entry: Record -> Record)
    requires forall k :: 0 <= k < |contests| ==> GetOr(contests[k], "title", NoTitle) in done
    ensures Unseen(contests, done, entry) == []
  {
    if contests != [] {
      SkipsAll(contests[..|contests| - 1], done, entry);
    }
  }

  /* ----------------------------------------------------------------- tagger */

  class Tagger {
    /** `image_cache`, keyed by the poster link (the source keys it by the link's MD5 digest). */
    var imageCache: map<string, string>
    /** The stored contests, tags and filters. */
    var db: Db
    /** The last contents written to `contest_with_tags.json`. */
    var output: Option<seq<Record>>
    const fetchImage: string -> Option<string>
    const dbAvailable: bool

    /** Every cached image is what fetching its link gives. */
    predicate Valid()
      reads this`imageCache
    {
      forall u :: u in imageCache ==> fetchImage(u) == Some(imageCache[u])
    }

    constructor(fetchImage: string -> Option<string>, dbAvailable: bool, db: Db)
      ensures Valid()
      ensures imageCache == map[] && this.db == db && output == None
      ensures this.fetchImage == fetchImage && this.dbAvailable == dbAvailable
    {
      this.fetchImage := fetchImage;
      this.dbAvailable := dbAvailable;
      this.db := db;
      imageCache := map[];
      output := None;
    }

    /** `download_and_encode_image`: served from the cache when present; only successes are cached. */
    method DownloadAndEncodeImage(url: string) returns (image: Option<string>)
      requires Valid()
      modifies this`imageCache
      ensures Valid()
      ensures image == fetchImage(url)
      ensures imageCache == if url in old(imageCache) || fetchImage(url).None? then old(imageCache)
                            else old(imageCache)[url := fetchImage(url).value]
    {
      if url in imageCache {
        return Some(imageCache[url]);
      }
      image := fetchImage(url);
      if image.Some? {
        imageCache := imageCache[url := image.value];
      }
    }

    /** `analyze_image_with_retry`, with the reply to each attempt given by `ask`. */
    method AnalyzeImageWithRetry(ask: nat -> Reply, title: string, maxRetries: int) returns (result: string)
      ensures result == RetryResult(ask, title, maxRetries)
    {
      var exhausted;
      result, exhausted := RetryAnswers(Analyses(ask, title), IsValidResult, maxRetries);
      if exhausted {
        result := GenerateFallbackKeywords(title);
      }
    }

    /**
     * The loop of `analyze_image_with_retry`, where `answers(attempt)` is what
     * `analyze_image` returns at that attempt: the first accepted answer, or
     * `exhausted` when the last attempt was refused too and the fallback is due.
     */
    method RetryAnswers(answers: nat -> string, valid: string -> bool, maxRetries: int) returns (result: string, exhausted: bool)
      ensures maxRetries < 0 ==> result == AnalysisFailed && !exhausted
      ensures maxRetries >= 0 ==> forall fallback :: FirstAccepted(answers, valid, fallback, 0, maxRetries) == if exhausted then fallback else result
    {
      var attempt: nat := 0;
      while attempt <= maxRetries
        invariant maxRetries >= 0 ==> attempt <= maxRetries
        invariant maxRetries >= 0 ==> forall fallback :: FirstAccepted(answers, valid, fallback, 0, maxRetries) == FirstAccepted(answers, valid, fallback, attempt, maxRetries)
        invariant maxRetries < 0 ==> attempt == 0
        decreases maxRetries + 1 - attempt
      {
        var r := answers(attempt);
        if valid(r) {
          return r, false;
        } else if attempt < maxRetries {
          attempt := attempt + 1;
        } else {
          return "", true;
        }
      }
      return AnalysisFailed, false;
    }

    /** `save_contests_to_db` on one batch. */
    method SaveContestsToDb(batch: seq<Record>) returns (inserted: nat, skipped: nat)
      modifies this`db
      ensures batch == [] ==> db == old(db) && inserted == 0 && skipped == 0
      ensures batch != [] && !dbAvailable ==> db == old(db) && inserted == 0 && skipped == |batch|
      ensures batch != [] && dbAvailable ==>
        db == DbRun(old(db), Offers(batch)) && inserted == Inserted(old(db), Offers(batch)) && skipped == |batch| - inserted
    {
      if batch == [] {
        return 0, 0;
      }
      if !dbAvailable {
        return 0, |batch|;
      }
      inserted := SaveEach(batch);
      skipped := |batch| - inserted;
    }

    /** The loop of `save_contests_to_db` over a batch, with the database reachable. */
    method SaveEach(batch: seq<Record>) returns (inserted: nat)
      modifies this`db
      ensures db == DbRun(old(db), Offers(batch))
      ensures inserted == Inserted(old(db), Offers(batch))
    {
      ghost var os := Offers(batch);
      inserted := 0;
      var i := 0;
      while i < |batch|
        invariant 0 <= i <= |batch|
        invariant db == DbRun(old(db), os[..i])
        invariant inserted == Inserted(old(db), os[..i])
      {
        DbRunStep(old(db), os, i);
        var ok := AdmitContest(batch[i]);
        if ok {
          inserted := inserted + 1;
        }
        i := i + 1;
      }
      assert os[..i] == os;
    }

    /** The body of the loop of `save_contests_to_db`: validate one contest, check for a duplicate, insert. */
    method AdmitContest(c: Record) returns (inserted: bool)
      modifies this`db
      ensures (db, inserted) == Admit(old(db), OfferOf(c))
    {
      var row := CandidateRow(c);
      if row.None? {
        return false;
      }
      if Clashes(db.rows, row.value) {
        return false;
      }
      db := Db(db.rows + {row.value}, db.tags + TagNames(GetOr(c, "tags", "")), db.filters + FilterNames(GetOr(c, "filtering", "")));
      return true;
    }

    /** One contest that reaches the model or not: the entry, and whether the model path was taken. */
    method TagContest(c: Record, model: (string, string, nat) -> Reply) returns (entry: Record, viaModel: bool)
      requires Valid()
      modifies this`imageCache
      ensures Valid()
      ensures entry == TagEntry(c, fetchImage, model)
      ensures viaModel == ReachesModel(c, fetchImage)
    {
      var title := GetOr(c, "title", NoTitle);
      var poster := GetOr(c, "poster_url", "");
      if poster == "N/A" || poster == "" {
        return Tagged(c, NoPoster, FilteringTagFromTitle(title)), false;
      }
      var image := DownloadAndEncodeImage(poster);
      entry, viaModel := TagPoster(c, image, model);
    }

    /** A contest with a poster link: a failed download, or the model's retried answer split into tags and filter. */
    method TagPoster(c: Record, image: Option<string>, model: (string, string, nat) -> Reply) returns (entry: Record, viaModel: bool)
      requires GetOr(c, "poster_url", "") != "N/A" && GetOr(c, "poster_url", "") != ""
      requires image == fetchImage(GetOr(c, "poster_url", ""))
      ensures entry == TagEntry(c, fetchImage, model)
      ensures viaModel == ReachesModel(c, fetchImage)
    {
      var title := GetOr(c, "title", NoTitle);
      if image.None? {
        EntryTagsNoImage(c, fetchImage, model);
        TagEntryFrom(c, fetchImage, model, (DownloadFailed, FilteringTagFromTitle(title)));
        return Tagged(c, DownloadFailed, FilteringTagFromTitle(title)), false;
      }
      var tags := AnalyzeImageWithRetry(AskAbout(model, image.value, title), title, 2);
      EntryTagsByModel(c, fetchImage, model);
      var t := ModelTags(tags, title);
      TagEntryFrom(c, fetchImage, model, t);
      entry := Tagged(c, t.0, t.1);
      viaModel := true;
    }

    /**
     * `extract_tags_from_final_contest`, given the contests read from the input
     * file and the entries of an earlier output file (`[]` when there is none).
     */
    method ExtractTags(contests: seq<Record>, previous: seq<Record>, model: (string, string, nat) -> Reply)
      returns (results: seq<Record>)
      requires Valid()
      modifies this`imageCache, this`db, this`output
      ensures Valid()
      ensures results == previous + TagAll(contests, TitlesOf(previous), fetchImage, model)
      ensures output == Some(results)
      ensures db == if dbAvailable then DbRun(old(db), Offers(TagAll(contests, TitlesOf(previous), fetchImage, model))) else old(db)
    {
      var done := TitlesOf(previous);
      var batch;
      ghost var flushed;
      results, batch, flushed := ExtractLoop(contests, done, model, previous, old(db));
      if batch != [] {
        FlushBatch(old(db), flushed, batch);
        flushed := flushed + batch;
        batch := [];
      }
      assert flushed == flushed + batch;
      output := Some(results);
    }

    /** The loop of `extract_tags_from_final_contest`: the results so far, and the batch not yet saved. */
    method ExtractLoop(contests: seq<Record>, done: set<string>, model: (string, string, nat) -> Reply,
                       previous: seq<Record>, ghost db0: Db)
      returns (results: seq<Record>, batch: seq<Record>, ghost flushed: seq<Record>)
      requires Valid()
      requires db == db0
      modifies this`imageCache, this`db, this`output
      ensures Valid()
      ensures results == previous + (flushed + batch)
      ensures flushed + batch == TagAll(contests, done, fetchImage, model)
      ensures db == if dbAvailable then DbRun(db0, Offers(flushed)) else db0
    {
      results := previous;
      batch := [];
      flushed := [];
      var i := 0;
      while i < |contests|
        invariant 0 <= i <= |contests|
        invariant Valid()
        invariant results == previous + (flushed + batch)
        invariant flushed + batch == TagAll(contests[..i], done, fetchImage, model)
        invariant db == if dbAvailable then DbRun(db0, Offers(flushed)) else db0
      {
        results, batch, flushed := Turn(contests, i, done, model, previous, results, batch, db0, flushed);
        i := i + 1;
      }
      assert contests[..i] == contests;
    }

    /** One turn of the loop of `extract_tags_from_final_contest`, on the contest at `i`. */
    method Turn(contests: seq<Record>, i: nat, done: set<string>, model: (string, string, nat) -> Reply, ghost previous: seq<Record>,
                results: seq<Record>, batch: seq<Record>, ghost db0: Db, ghost flushed: seq<Record>)
      returns (results': seq<Record>, batch': seq<Record>, ghost flushed': seq<Record>)
      requires i < |contests| && Valid()
      requires results == previous + (flushed + batch)
      requires flushed + batch == TagAll(contests[..i], done, fetchImage, model)
      requires db == if dbAvailable then DbRun(db0, Offers(flushed)) else db0
      modifies this`imageCache, this`db, this`output
      ensures Valid()
      ensures results' == previous + (flushed' + batch')
      ensures flushed' + batch' == TagAll(contests[..i + 1], done, fetchImage, model)
      ensures db == if dbAvailable then DbRun(db0, Offers(flushed')) else db0
    {
      TagAllStep(contests, done, fetchImage, model, i);
      var added, viaModel := NextEntry(contests[i], done, model);
      results', batch', flushed' := Enqueue(added, viaModel, previous, results, batch, db0, flushed);
    }

    /** What one turn of the loop adds: nothing for a title already processed, else the contest's entry. */
    method NextEntry(c: Record, done: set<string>, model: (string, string, nat) -> Reply) returns (added: seq<Record>, viaModel: bool)
      requires Valid()
      modifies this`imageCache
      ensures Valid()
      ensures added == Appended(c, done, fetchImage, model)
    {
      if GetOr(c, "title", NoTitle) in done {
        return [], false;
      }
      var entry;
      entry, viaModel := TagContest(c, model);
      added := [entry];
    }

    /**
     * The rest of one turn of the loop: append to the results and the pending
     * batch; after a model answer, when the results reach a multiple of three,
     * write the results out and save the batch.
     */
    method Enqueue(added: seq<Record>, viaModel: bool, ghost previous: seq<Record>, results: seq<Record>, batch: seq<Record>, ghost db0: Db, ghost flushed: seq<Record>)
      returns (results': seq<Record>, batch': seq<Record>, ghost flushed': seq<Record>)
      requires results == previous + (flushed + batch)
      requires db == if dbAvailable then DbRun(db0, Offers(flushed)) else db0
      modifies this`db, this`output
      ensures results' == results + added
      ensures results' == previous + (flushed' + batch')
      ensures flushed' + batch' == flushed + batch + added
      ensures db == if dbAvailable then DbRun(db0, Offers(flushed')) else db0
    {
      results' := results + added;
      batch' := batch + added;
      flushed' := flushed;
      assert flushed + batch + added == flushed' + batch';
      assert results' == previous + (flushed' + batch');
      if added != [] && viaModel && |results'| % 3 == 0 {
        output := Some(results');
        FlushBatch(db0, flushed, batch');
        flushed' := flushed + batch';
        batch' := [];
        assert flushed' + batch' == flushed';
      }
    }

    /** A save of the pending batch on top of the earlier ones: the tables hold everything saved so far. */
    method FlushBatch(ghost db0: Db, ghost flushed: seq<Record>, batch: seq<Record>)
      requires db == if dbAvailable then DbRun(db0, Offers(flushed)) else db0
      modifies this`db
      ensures db == if dbAvailable then DbRun(db0, Offers(flushed + batch)) else db0
    {
      var inserted, skipped := SaveContestsToDb(batch);
      SaveFlushes(db0, flushed, batch);
      if batch == [] {
        assert flushed + batch == flushed;
      }
    }
  }

  /** What the loop appends for one contest: nothing for a processed title, else its entry. */
  function Appended(c: Record, done: set<string>, fetchImage: string -> Option<string>, model: (string, string, nat) -> Reply): seq<Record> {
    if GetOr(c, "title", NoTitle) in done then [] else [TagEntry(c, fetchImage, model)]
  }

  lemma TagAllStep(contests: seq<Record>, done: set<string>, fetchImage: string -> Option<string>, model: (string, string, nat) -> Reply, i: nat)
    requires i < |contests|
    ensures TagAll(contests[..i + 1], done, fetchImage, model)
         == TagAll(contests[..i], done, fetchImage, model) + Appended(contests[i], done, fetchImage, model)
  {
    assert contests[..i + 1][..i] == contests[..i];
    EntriesAgree(fetchImage, model);
  }

  /** Saving the pending batch on top of the earlier saves is the save of everything so far. */
  lemma SaveFlushes(db0: Db, flushed: seq<Record>, batch: seq<Record>)
    ensures DbRun(DbRun(db0, Offers(flushed)), Offers(batch)) == DbRun(db0, Offers(flushed + batch))
  {
    OffersAppend(flushed, batch);
    DbRunAppend(db0, Offers(flushed), Offers(batch));
  }
}
