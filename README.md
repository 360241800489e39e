# TeamUp backend — a verified model of its contest pipeline and rule engines

TeamUp is a backend for forming contest teams. This project models its core in Dafny and proves properties of that model:

- **The contest-ingestion pipeline under `jobs/`.**
  - `CrawlingExecutor` (`crawler.dfy`, with `dates.dfy` for its end-date formats):
    - orders the site crawler scripts;
    - prunes expired catalog entries;
    - merges newly crawled records into the catalog, keyed by a poster fingerprint, and keeps a duplicates ledger;
    - appends the exclusion ledger;
    - accepts a crawler's temporary output only when it holds records.
  - The three site adapters, ThinkYou, ContestKorea and Linkareer (`thinkyou.dfy`, `contestkorea.dfy`, `linkareer.dfy`). Their shared rules are in `site_rules.dfy`: eligibility, exclusion records, `start ~ end` period splitting and absolute URLs.
  - The poster tagger's keyword rules (`keywords.dfy`):
    - the response validator;
    - the repair step;
    - the title fallback;
    - the title classifier;
    - keyword cleaning.
  - Its stateful parts and the image sizing (`tag_generator.dfy`):
    - image sizing;
    - the image cache;
    - the retry loop;
    - the resumable per-entry tagging loop with checkpoints;
    - the database counting.
- **The API layer's rule engines and state machines.**
  - The multi-step registration sessions (`registration.dfy`).
  - The personality-profile matcher and the traits map (`personality.dfy`).
  - The email verification-code store (`email_auth.dfy`).
- **The discrete helpers of the synergy model.**
  - The team feature vector (`preprocessing.dfy`):
    - the diversity score;
    - the small-team penalty;
    - the leader-ratio bands;
    - the `filter_id:award_status` experience parser.
  - The score-level and message selection (`message_generator.dfy`).
  - The applicant building of the synergy router (`synergy.dfy`): the tag-to-field mapping, the `UNKNOWN` defaults and the experience, role and skill strings, whose experience string parses back through the preprocessing parser.

Python's string operations are modelled once, in `text.dfy`: `strip`, `split`, `join`, `in`, `lower` and `int`/`str`. `records.dfy` holds the JSON records, and `wrappers.dfy` holds `Option` and `Result`.

**How the state is modelled.**

- Objects whose fields the code updates are classes:
  - the executor;
  - the tagger with its image cache, database and output;
  - the exclusion list;
  - the registration service;
  - the verification-code store.

  Each method is proved equal to a specification function of the old state, and the pipeline's promises are proved about those functions.
- The network, the poster fingerprint (download plus MD5), the image model, the database and the clock are parameters. They are either functions passed in, or sequences and sets of what they would return.

## Model

| member | source | states |
|---|---|---|
| Records.Get | jobs/crawler.py:177 | `get` finds a value iff the key is present, and then it is the stored one |
| Records.GetOr | jobs/crawler.py:205 | `get` with a default gives the stored value for a present key and the default otherwise |
| Records.Dicts | jobs/crawler.py:199 | keeping the objects of a JSON list never adds elements |
| Records.DictsMembers | jobs/crawler.py:222-223 | the objects kept are exactly the objects of the list |
| Dates.Digits2Value | jobs/crawler.py:170 | the two-digit rendering of a month or day reads back to that number |
| Dates.Digits4Value | jobs/crawler.py:170 | the four-digit rendering of a year reads back to that number |
| Dates.ParseFormat | jobs/crawler.py:167-172 | strptime accepts every zero-padded rendering of a valid date in a layout and reads back that date |
| Dates.ParseOnlyFormat | jobs/crawler.py:167-172 | whatever strptime accepts is a valid date written in exactly that layout's zero-padded form |
| Dates.FirstParse | jobs/crawler.py:168-173 | the first layout that parses wins; none parsing gives no date |
| Dates.SeparatorMismatch | jobs/crawler.py:167 | a date rendered with one one-character year separator is refused by every layout with a different one |
| Dates.FirstParseSkips | jobs/analyzer.py:73-77 | when the earlier layouts all fail, a layout that parses the text gives FirstParse's date |
| Text.Split | ml/preprocessing.py:174-178 | `split` on one character gives at least one piece, no piece holds the separator, and joining the pieces gives the text back |
| Text.SplitJoin | ml/preprocessing.py:174 | splitting a text joined with `", "` on `,` gives back the first piece and each later one with a leading space |
| Text.IntToString | routers/synergy.py:163 | `str` of an integer is ASCII digits with an optional leading minus |
| Text.IntToStringRoundTrip | ml/preprocessing.py:179-180 | `int(str(i))` is `i` |
| Text.Dedup | jobs/crawler.py:63-65 | deduplication keeps every element of the list and nothing else, each once, and never lengthens it |
| Text.DedupFirstOccurrence | jobs/crawler.py:63-65 | the deduplicated elements appear in the order of their first occurrence in the list |
| Text.Strip | ml/preprocessing.py:175 | `strip` never lengthens a text, and what it leaves neither starts nor ends with whitespace |
| Text.TrimLeft | ml/preprocessing.py:175 | the leading whitespace removed is all whitespace and the rest is a suffix of the text |
| Text.TrimRight | ml/preprocessing.py:175 | the trailing whitespace removed is all whitespace and the rest is a prefix of the text |
| Text.StripTrimmed | ml/preprocessing.py:179-180 | stripping a text without surrounding whitespace leaves it unchanged |
| Text.StartsWith | jobs/crawling/contestkorea.py:53 | `startswith` holds iff the prefix fits and the text begins with it |
| Text.Contains | jobs/crawling/contestkorea.py:35 | `in` on strings holds for a prefix, and only for a substring no longer than the text |
| Text.ContainsWitness | jobs/crawling/contestkorea.py:35 | when `sub in s` holds, `sub` occurs at some position of `s` |
| Text.ContainsAtPosition | jobs/crawling/contestkorea.py:35 | an occurrence of `sub` at any position of `s` makes `sub in s` hold (the converse of ContainsWitness) |
| Text.ContainsAny | jobs/crawling/contestkorea.py:33-37 | the keyword loop finds a keyword iff some keyword is contained in the text |
| Text.LowerAscii | jobs/analyzer.py:514 | `lower` keeps the length and maps exactly the ASCII capitals to small letters |
| Text.ParseInt | ml/preprocessing.py:179-180 | `int` accepts only non-empty text |
| Text.NatToString | routers/synergy.py:163 | `str` of a natural number is its decimal digits, without a leading zero |
| Text.NatToStringValue | routers/synergy.py:163 | the digits of `str(n)` read back to `n` |
| Text.Take | jobs/crawling/thinkyou.py:436 | `s[:n]` is the prefix of length `n`, or all of `s` when it is shorter |
| Text.MapSeq | ml/preprocessing.py:69 | a comprehension keeps the length and maps each element in place |
| Text.Filter | routers/registration.py:294 | a filtering comprehension keeps only elements of the list that pass the test, and every element that passes |
| Text.FilterPositions | routers/registration.py:294 | the filtered list is the list at exactly the positions whose element passes, in increasing order, so order and repeats are kept |
| Text.FilterAppend | ml/message_generator.py:77-79 | filtering consecutive runs filters each run, in order |
| Text.DedupSnoc | jobs/analyzer.py:413 | one more element is kept after the others iff it was not seen before |
| Dates.Digits2 | jobs/crawler.py:170 | a month or day is written as two ASCII digits |
| Dates.Digits4 | jobs/crawler.py:170 | a year is written as four ASCII digits |
| Dates.Digits2Inverse | jobs/crawler.py:170 | any two digits read as a number below 100 that is written back as the same digits |
| Dates.Digits4Inverse | jobs/crawler.py:170 | any four digits read as a number below 10000 that is written back as the same digits |
| Crawler.Candidates | jobs/crawler.py:48-50 | the glob yields at most as many scripts as directory entries |
| Crawler.CandidatesMembers | jobs/crawler.py:48-50 | a name is a candidate iff some entry with that name is a regular `.py` file other than `__init__.py` |
| Crawler.PresentIn | jobs/crawler.py:53-60 | the prioritised scripts are at most the three of the execution order |
| Crawler.PresentInMembers | jobs/crawler.py:56-60 | a name is picked by the priority loop iff it is in the execution order and was found; no name is picked twice |
| Crawler.Without | jobs/crawler.py:63-65 | the scripts left for the last loop are never more than those found |
| Crawler.WithoutIsFilter | jobs/crawler.py:63-65 | the scripts left for the last loop are those found, filtered by `not in` the execution order, in order and with repeats kept |
| Crawler.WithoutMembers | jobs/crawler.py:63-65 | a found script remains for the last loop iff it is not in the execution order |
| Crawler.ScriptOrderRunsEachOnce | jobs/crawler.py:40-67 | the sorted list has no duplicates, holds exactly the found scripts, and starts with the present scripts of the execution order in that order |
| Crawler.CrawlingExecutor.GetCrawlingFiles | jobs/crawler.py:40-67 | the list is empty when the folder is missing and otherwise the priority scripts followed by the others |
| Crawler.CrawlingExecutor.FindScripts | jobs/crawler.py:48-50 | the glob loop collects exactly the candidates, in discovery order |
| Crawler.CrawlingExecutor.SortByOrder | jobs/crawler.py:56-60 | the priority loop appends each script of the execution order that was found, in that order |
| Crawler.CrawlingExecutor.Find | jobs/crawler.py:57-60 | the inner search stops at a position holding the name, or runs off the end iff the name is absent |
| Crawler.CrawlingExecutor.AppendOthers | jobs/crawler.py:63-65 | the last loop appends each found script not yet sorted, once, in discovery order |
| Crawler.ParseEndDate | jobs/crawler.py:164-173 | a parsed end date is a valid date written in one of the four layouts |
| Crawler.ParseEndDateFormat | jobs/crawler.py:167-172 | each of the four renderings of a valid date parses back to that date |
| Crawler.Prune | jobs/crawler.py:199 | pruning never adds entries |
| Crawler.PruneKeeps | jobs/crawler.py:175-185 | a stored entry survives iff it is an object whose end date is missing, unparsable or not before today |
| Crawler.ImageHash | jobs/crawler.py:187-195 | an empty or `N/A` poster URL has no fingerprint; any other URL has the fetch oracle's |
| Crawler.HashesOfMembers | jobs/crawler.py:204-217 | the stored fingerprint set holds exactly the fingerprints of the stored records |
| Crawler.Ledger | jobs/crawler.py:209-215 | every ledger row built for a reason carries that reason |
| Crawler.FirstSeenFlagsAt | jobs/crawler.py:221-240 | the flag computed by the loop at each position is the closed-form "fingerprint not seen before" test |
| Crawler.RepeatFlagsAt | jobs/crawler.py:204-217 | the flag computed by the loop at each position is the closed-form "fingerprint seen before" test |
| Crawler.PickSplits | jobs/crawler.py:221-240 | every record lands in exactly one of the kept and rejected groups |
| Crawler.ExistingPassRepeats | jobs/crawler.py:204-217 | the stored-records loop writes an `existing-duplicate` row exactly for each record whose fingerprint an earlier record has |
| Crawler.IncomingPassFirstSeen | jobs/crawler.py:221-240 | the new-records loop keeps records without a fingerprint and those first seen, and writes a `conflict-with-existing` row for each one it rejects: every kept fingerprint also joins `existing_hashes`, so the `duplicate-in-new` label is never written, and a repeat within the new records is reported as a conflict with the existing ones |
| Crawler.KeptHashesFresh | jobs/crawler.py:228-240 | the fingerprints of the kept new records are pairwise distinct and none was already stored |
| Crawler.CrawlingExecutor.MergeByPosterHash | jobs/crawler.py:197-241 | the merged catalogue is the pruned stored list followed by the kept new records, and the ledger is the stored-duplicate rows followed by the rejected-new rows |
| Crawler.CrawlingExecutor.PruneExpired | jobs/crawler.py:199 | the first merge step yields exactly the pruned stored list |
| Crawler.CrawlingExecutor.FingerprintExisting | jobs/crawler.py:200-217 | the second merge step yields the fingerprint set of the stored records and their repeat rows |
| Crawler.CrawlingExecutor.AdmitIncoming | jobs/crawler.py:218-240 | the third merge step yields the kept new records and their rejection rows |
| Crawler.CrawlingExecutor.ExecuteCrawlingFile | jobs/crawler.py:69-135 | a run with exit status 0 extends the collected contests and exclusions by each artifact that is a JSON list, in that order; any other run leaves them unchanged |
| Crawler.CrawlingExecutor.SaveAllResults | jobs/crawler.py:137-162 | the catalogue file becomes the merge of the stored list (or `[]` for any other iterable or false value) with the collected contests, and the duplicates file the merge's ledger; a stored number or `true` makes the merge raise and nothing is written |
| Crawler.CrawlingExecutor.SaveExcludedResults | jobs/crawler.py:243-261 | the exclusion file becomes the stored list (or `[]`) followed by the collected exclusions, without dedup |
| Crawler.CrawlingExecutor.ExecuteAll | jobs/crawler.py:279-281 | running the scripts in turn appends each one's accepted artifacts, in script order |
| Crawler.CrawlingExecutor.ExecuteNext | jobs/crawler.py:279-281 | one more script appends exactly its accepted artifacts |
| Crawler.CrawlingExecutor.RunAllCrawling | jobs/crawler.py:263-289 | the collected lists grow by every script's accepted artifacts; with no scripts no file changes; otherwise the files are saved as `SavedFrom` describes |
| Crawler.CrawlingExecutor.SaveCollected | jobs/crawler.py:283-289 | the catalogue and duplicates files are rewritten only when contests were collected, the exclusion file only when exclusions were |
| Keywords.NonEmptyStripped | jobs/analyzer.py:374 | the stripped pieces kept are non-empty and trimmed, and no more than the pieces |
| Keywords.NonEmptyStrippedOf | jobs/analyzer.py:448 | stripping piece by piece and dropping empties equals dropping the empties of the stripped pieces |
| Keywords.TokensOfRender | jobs/analyzer.py:441 | reading a rendered answer back gives the non-empty keywords, then the category |
| Keywords.TokensOfJoin | jobs/analyzer.py:510 | reading a `', '`-joined list back gives its non-empty entries |
| Keywords.SplitRendered | jobs/analyzer.py:374 | the comma-separated pieces of a `', '`-joined list strip back to its entries |
| Keywords.ValidRenderIff | jobs/analyzer.py:369-387 | a rendered answer of three keywords and a category is valid exactly when the category is one of the six and every part is non-empty, at most 31 characters and free of `:` and `.` |
| Keywords.RenderNotSentinel | jobs/analyzer.py:371 | a rendered answer is never empty nor one of the failure sentinels |
| Keywords.RemovePunctuation | jobs/analyzer.py:498 | the punctuation filter leaves only word characters, whitespace and Hangul, and leaves such a text as it is |
| Keywords.CollapseSpacesEnds | jobs/analyzer.py:500 | collapsing whitespace keeps emptiness, turns a leading run into one blank and keeps a non-blank end |
| Keywords.CollapseSpacesCollapsed | jobs/analyzer.py:500 | after collapsing, the only whitespace is single blanks |
| Keywords.CollapseSpacesKept | jobs/analyzer.py:500 | collapsing adds no character outside the kept classes |
| Keywords.CleanKeyword | jobs/analyzer.py:496-501 | a cleaned keyword has only kept characters, no surrounding whitespace and no whitespace runs |
| Keywords.KeptHasNoPunctuation | jobs/analyzer.py:498 | a cleaned keyword has no comma, colon, full stop or slash |
| Keywords.CleanKeywordFixed | jobs/analyzer.py:496-501 | a keyword that is already clean is its own cleaning |
| Keywords.CleanKeywordIdempotent | jobs/analyzer.py:496-501 | cleaning twice is cleaning once |
| Keywords.CleanWebApp | jobs/analyzer.py:498 | cleaning turns the category `웹/앱` into `웹앱`, which is not a category |
| Keywords.CleanCategories | jobs/analyzer.py:496-501 | the five categories other than `웹/앱` are unchanged by cleaning |
| Keywords.CleanAll | jobs/analyzer.py:438 | cleaning a list cleans each entry, keeping the length |
| Keywords.TokensOfCleanJoin | jobs/analyzer.py:509-510 | joining the non-empty clean parts and reading the result back gives those parts |
| Keywords.CleanKeywordsStringTokens | jobs/analyzer.py:503-510 | the cleaned string reads back as the cleaned, non-empty parts of the input |
| Keywords.FirstMatch | jobs/analyzer.py:516-527 | the chain yields the default or the category of one of its rules |
| Keywords.FirstMatchIsFirst | jobs/analyzer.py:516-527 | the rule chosen matches and no earlier rule does |
| Keywords.FirstMatchNone | jobs/analyzer.py:526-527 | when no rule matches the chain yields the default |
| Keywords.FilteringTagFromTitle | jobs/analyzer.py:512-527 | the tag is always one of the six categories |
| Keywords.FilteringTagIgnoresCase | jobs/analyzer.py:514 | the title's tag ignores the case of ASCII letters |
| Keywords.PadWord | jobs/analyzer.py:481-487 | the padding word is one of `공모전`, `대회`, `참가` |
| Keywords.PadWordFresh | jobs/analyzer.py:482-485 | the padding word appended to a short list is never already in it |
| Keywords.PaddedShape | jobs/analyzer.py:481-487 | padding keeps the list as a prefix, brings it to at least three entries with padding words, and adds no duplicate |
| Keywords.PadToThree | jobs/analyzer.py:429-435 | the `while len(keywords) < 3` loop yields exactly the padded list |
| Keywords.FallbackCategory | jobs/analyzer.py:415-427 | the fallback category is one of the six |
| Keywords.FallbackCandidates | jobs/analyzer.py:394-410 | the title's candidate keywords all come from the fallback vocabulary |
| Keywords.GenerateFallbackKeywords | jobs/analyzer.py:389-441 | the method's answer is the fallback answer for the title, including the fixed answer for an empty title |
| Keywords.FallbackListShape | jobs/analyzer.py:413-435 | padding the first three distinct candidates gives three distinct vocabulary words |
| Keywords.FallbackShape | jobs/analyzer.py:389-441 | the fallback names exactly three distinct vocabulary keywords, then its cleaned category |
| Keywords.EmptyTitleFallbackValid | jobs/analyzer.py:391-392 | the answer for an empty title passes the validator |
| Keywords.FallbackValidIff | jobs/analyzer.py:389-441 | the fallback passes the validator iff the title is empty or its category is not `웹/앱` |
| Keywords.PartitionSpec | jobs/analyzer.py:455-459 | the category kept is the last token that is one, `None` iff there is none, and the regular keywords are exactly the tokens that are not categories |
| Keywords.PartitionRegular | jobs/analyzer.py:455-459 | the regular keywords are the non-category tokens, in order and with repeats kept |
| Keywords.PartitionTokens | jobs/analyzer.py:455-459 | the partition loop yields exactly that category and those regular keywords |
| Keywords.ValidateAndFixKeywords | jobs/analyzer.py:443-494 | the method's answer is the repaired answer for the keywords and title |
| Keywords.FixKeywordsPassThrough | jobs/analyzer.py:445-446 | the empty answer and the no-response sentinel are returned unchanged |
| Keywords.FixKeywordsShape | jobs/analyzer.py:477-494 | a repaired answer reads back as the cleaned, non-empty forms of its keywords, which were distinct before cleaning, then its cleaned category |
| Keywords.FixedRegularBounds | jobs/analyzer.py:466-489 | the repaired keyword list has one to three entries and no repeats |
| Keywords.FixedWebAppRejected | jobs/analyzer.py:491-494 | a repair whose category is `웹/앱` never passes the validator |
| Keywords.FixedCategoryKept | jobs/analyzer.py:461-494 | for any other category the repaired answer ends with that category as written |
| TagGenerator.OptimalSizeZero | jobs/analyzer.py:259-266 | a side of zero makes the sizing fail, where the source divides by zero |
| TagGenerator.OptimalSizeUpscales | jobs/analyzer.py:264-266 | in exact arithmetic, an image with a side under 400 is scaled up so its shorter side is exactly 400 and both sides are at least 400 (the source's float truncation can fall one pixel short, see "## Left out") |
| TagGenerator.OptimalSizeDownscales | jobs/analyzer.py:268-274 | an image with a side over 1200 is scaled down so its longer side is exactly 1200 and neither side exceeds it |
| TagGenerator.OptimalSizeKeeps | jobs/analyzer.py:276 | an image with both sides between 400 and 1200 keeps its size |
| TagGenerator.FirstAcceptedIsFirst | jobs/analyzer.py:348-353 | the retry loop returns the first answer that passes the validator |
| TagGenerator.FirstAcceptedExhausted | jobs/analyzer.py:354-358 | when no attempt passes, the loop returns the fallback |
| TagGenerator.FirstAcceptedOutcome | jobs/analyzer.py:346-367 | the loop's answer passes the validator or is the fallback |
| TagGenerator.RetryExhausted | jobs/analyzer.py:354-365 | when all `max_retries + 1` attempts are invalid the answer is the title's fallback keywords |
| TagGenerator.RetryOutcome | jobs/analyzer.py:346-367 | with at least one attempt the answer is a valid analysis or the fallback, never an error text |
| TagGenerator.ParseDateMaybe | jobs/analyzer.py:69-78 | `N/A` and unparsable text give no date; a parsed date is valid and written in one of the five layouts |
| TagGenerator.ParseDateMaybeFormat | jobs/analyzer.py:72-77 | every rendering of a valid date in the five layouts reads back as that date |
| TagGenerator.Offers | jobs/analyzer.py:97-103 | each contest of a batch becomes one validated offer, in order |
| TagGenerator.Inserted | jobs/analyzer.py:180-181 | no more contests are inserted than offered |
| TagGenerator.DbRunUnshared | jobs/analyzer.py:111-120 | saving keeps the stored contests free of shared poster URLs and site URLs |
| TagGenerator.DbRunCounts | jobs/analyzer.py:97-185 | rows, tags and filters are only ever added, with one row per inserted contest |
| TagGenerator.DbRunCovers | jobs/analyzer.py:106-120 | after a save every usable contest is represented by a stored row sharing its poster or its site |
| TagGenerator.DbRunAppend | jobs/analyzer.py:633-665 | saving one batch and then another leaves the tables as saving both at once |
| TagGenerator.ModelTags | jobs/analyzer.py:602-622 | an answer with at least four parts gets the title's filter, and any other answer gets `아이디어` |
| TagGenerator.EntryTagsByModel | jobs/analyzer.py:583-618 | a contest that reaches the model is tagged from the retried answer about its image |
| TagGenerator.EntryTagsNoImage | jobs/analyzer.py:585-597 | a contest whose poster could not be fetched gets the download-failure tag and the title's filter |
| TagGenerator.EntryTagsShape | jobs/analyzer.py:563-618 | the filter written is one of the six categories: the title's, unless the model's answer had fewer than four parts |
| TagGenerator.ModelTagsShape | jobs/analyzer.py:602-618 | the filter from a model answer is one of the six categories |
| TagGenerator.TaggedShape | jobs/analyzer.py:575-576 | a written entry keeps the contest's other fields, carries its tags and filter, and drops `source` |
| TagGenerator.TagEntryShape | jobs/analyzer.py:563-630 | every written entry lacks `source`, has a filter among the six categories and keeps the contest's title |
| TagGenerator.UnseenMembers | jobs/analyzer.py:554-561 | the entries made are those of the contests whose title was not processed, one each |
| TagGenerator.TagAllMembers | jobs/analyzer.py:556-657 | the entries appended are exactly those of the unprocessed contests, one entry each |
| TagGenerator.ResumeIsIdempotent | jobs/analyzer.py:546-561 | when every contest has a title, a second run over the first run's output appends nothing |
| TagGenerator.Tagger.DownloadAndEncodeImage | jobs/analyzer.py:214-257 | the image is the fetch oracle's answer; the cache gains the URL only on a successful first fetch |
| TagGenerator.Tagger.AnalyzeImageWithRetry | jobs/analyzer.py:346-367 | the method's answer is the retry result for the replies to each attempt |
| TagGenerator.Tagger.RetryAnswers | jobs/analyzer.py:348-367 | the loop yields the first accepted answer, or reports exhaustion; a negative retry count gives `분석 실패` |
| TagGenerator.Tagger.SaveContestsToDb | jobs/analyzer.py:80-210 | an empty batch saves nothing; without a database every contest is skipped; otherwise the tables become the batch's save and the counts add up to the batch |
| TagGenerator.Tagger.SaveEach | jobs/analyzer.py:97-185 | the loop over a batch leaves the tables as the batch's save and counts its insertions |
| TagGenerator.Tagger.AdmitContest | jobs/analyzer.py:98-181 | one contest is validated, checked for a duplicate poster or site, and inserted with its tags and filter |
| TagGenerator.Tagger.TagContest | jobs/analyzer.py:563-630 | one contest's entry, and whether it went through the model |
| TagGenerator.Tagger.TagPoster | jobs/analyzer.py:583-618 | a poster either fails to download or is tagged from the model's retried answer |
| TagGenerator.Tagger.ExtractTags | jobs/analyzer.py:529-676 | the results are the earlier output followed by one entry per unprocessed contest, and they are written to the output file |
| TagGenerator.Tagger.ExtractLoop | jobs/analyzer.py:556-657 | the loop's results are the earlier output plus the saved and pending entries, which are the entries of the unprocessed contests |
| TagGenerator.Tagger.Turn | jobs/analyzer.py:556-657 | one turn extends the entries by those of the contest at its position |
| TagGenerator.Tagger.NextEntry | jobs/analyzer.py:557-561 | a turn adds nothing for a processed title and the contest's entry otherwise |
| TagGenerator.Tagger.Enqueue | jobs/analyzer.py:628-644 | a turn appends to the results and the pending batch, and on a model answer with the result count a multiple of three saves and empties the batch |
| TagGenerator.Tagger.FlushBatch | jobs/analyzer.py:637-643 | the tables after a batch save are the save of everything saved so far |
| TagGenerator.SaveFlushes | jobs/analyzer.py:637-665 | saving the pending batch after the earlier saves is saving everything at once |
| SiteRules.OrNA | jobs/crawling/contestkorea.py:20 | a found text is kept and a missing one becomes `N/A` |
| SiteRules.Period | jobs/crawling/contestkorea.py:59-65 | a missing period gives `N/A` for both dates |
| SiteRules.PeriodWithoutTilde | jobs/crawling/contestkorea.py:60-62 | a period without `~` is all start date, with end date `N/A` |
| SiteRules.PeriodWithTilde | jobs/crawling/contestkorea.py:60-62 | for `a~b` the start date is `a` stripped and the end date the part of `b` before any further `~`, stripped |
| SiteRules.WithoutTabs | jobs/crawling/contestkorea.py:31 | removing tabs leaves no tab, never lengthens the text, and keeps every other character present |
| SiteRules.WithoutTabsKeeps | jobs/crawling/contestkorea.py:30-31 | a text without tabs is left as it is |
| SiteRules.Target | jobs/crawling/contestkorea.py:28-31 | the target text never holds a tab |
| SiteRules.PosterUrl | jobs/crawling/contestkorea.py:51-54 | a missing or empty `src` gives `N/A`, a path starting with `/` gets the site prefix, anything else is kept |
| SiteRules.ContestRecordFields | jobs/crawling/contestkorea.py:67-73 | a contest record has exactly the five fields `title`, `site_url`, `poster_url`, `start_date`, `end_date` with the given values |
| SiteRules.PagesStep | jobs/crawling/contestkorea.py:96-117 | one more list item adds a detail page iff it has a link with a non-empty `href` |
| SiteRules.ContestsAppend | jobs/crawling/contestkorea.py:109-111 | the contests of consecutive runs of pages are those of each run, in order |
| SiteRules.ExclusionsAppend | jobs/crawling/contestkorea.py:40-47 | the exclusions of consecutive runs of pages are those of each run, in order |
| SiteRules.ContestsExclusionsCount | jobs/crawling/contestkorea.py:39-73 | when no page yields both, contests and exclusions together number the pages that yield something |
| SiteRules.PagesPartition | jobs/crawling/contestkorea.py:96-113 | when no detail page yields both a contest and an exclusion, as both adapters' DetailsSpec show, the two lists of a list page together count its pages that yield something |
| SiteRules.ContestsFromPages | jobs/crawling/contestkorea.py:109-111 | every collected contest comes from some detail page |
| SiteRules.ExcludedList.Add | jobs/crawling/contestkorea.py:42-47 | appending an exclusion extends the list by it, and no exclusion leaves it unchanged |
| ContestKorea.DetailUrlUnderSub | jobs/crawling/contestkorea.py:102-106 | every detail URL lies under the domain's `/sub/` path and ends with the `href`; an `href` not starting with `/sub/` is put under `/sub/` |
| ContestKorea.DetailsSpec | jobs/crawling/contestkorea.py:5-77 | a fetched page yields a contest iff its target is present and contains an eligible keyword, otherwise one exclusion naming its title, target and URL; a failed request yields neither; a contest carries the URL, title and split period |
| ContestKorea.PageContestsUnderSub | jobs/crawling/contestkorea.py:96-111 | every collected contest has a site URL under `/sub/` |
| ContestKorea.GetContestDetails | jobs/crawling/contestkorea.py:5-77 | the result is the page's contest, and the exclusion list grows by its exclusion, if any |
| ContestKorea.FollowItem | jobs/crawling/contestkorea.py:97-117 | one list item contributes the contest and exclusion of its detail page when it has a usable `href`, else nothing |
| ContestKorea.CrawlContestKorea | jobs/crawling/contestkorea.py:79-119 | the contests are those of the list page's detail pages in order, and the exclusions are appended in the same order |
| Linkareer.PosterPathDoubled | jobs/crawling/linkareer.py:59-60 | a relative poster path is appended after the domain and a slash, so its own slash is doubled |
| Linkareer.DetailsSpec | jobs/crawling/linkareer.py:11-78 | a parsed page yields a contest iff its target is present and contains an eligible keyword, otherwise one exclusion naming its title, target and URL, whatever its poster and dates; a failure yields neither |
| Linkareer.GetContestDetails | jobs/crawling/linkareer.py:11-78 | the result is the page's contest, and the exclusion list grows by its exclusion, if any |
| Linkareer.FollowItem | jobs/crawling/linkareer.py:149-174 | one list item contributes the contest and exclusion of its detail page when it has a usable `href`, else nothing |
| Linkareer.CrawlLinkareer | jobs/crawling/linkareer.py:100-178 | the contests are those of the list page's detail pages in order, and the exclusions are appended in the same order |
| Thinkyou.OpenPrefixSpec | jobs/crawling/thinkyou.py:92-110 | the rows kept are the longest prefix without a closed row; a closed row is reported iff the scan stopped before the end, and it is the row it stopped at |
| Thinkyou.ScanSpec | jobs/crawling/thinkyou.py:75-119 | the header row is dropped; the active rows are the open rows after it up to the first closed one, in order; a closed row is reported iff some row after the header is closed; a page without rows gives nothing |
| Thinkyou.ContestListWithStatus | jobs/crawling/thinkyou.py:86-112 | the loop returns the active rows and the closed flag of the scan |
| Thinkyou.FirstTerm | jobs/crawling/thinkyou.py:308-321 | the index found is that of the first outline term naming eligibility, and none is found iff no term names it |
| Thinkyou.EligibilityUnderFirstTerm | jobs/crawling/thinkyou.py:302-321 | only the first eligibility term decides: a contest is eligible iff its description contains an eligible keyword, and the eligibility text is that description, or the no-information text when the term has none |
| Thinkyou.NoEligibilityTerm | jobs/crawling/thinkyou.py:303-304 | without an eligibility term the contest is ineligible and the text says no information was found |
| Thinkyou.SiteUrlAbsolute | jobs/crawling/thinkyou.py:259-261 | every detail URL starts with `http`: an absolute link is kept and a relative one gets the site prefix |
| Thinkyou.OutcomeSpec | jobs/crawling/thinkyou.py:273-357 | a fetched page yields a record iff the eligibility check raised nothing and found the contest eligible; the record carries title, URL, poster and split period; never both a record and an exclusion |
| Thinkyou.OutcomeExclusion | jobs/crawling/thinkyou.py:323-349 | an error in the check is excluded with its message; an ineligible contest is excluded with its eligibility text unless that text names a school level, in which case nothing is recorded |
| Thinkyou.Extract | jobs/crawling/thinkyou.py:248-268 | a row without a title or link, or whose detail request fails, yields nothing |
| Thinkyou.ExtractFetched | jobs/crawling/thinkyou.py:256-357 | a row with a title and a link yields what its detail page yields at the absolute URL |
| Thinkyou.Kept | jobs/crawling/thinkyou.py:395-397 | exclusions are kept; a record is kept iff its title is not all digits |
| Thinkyou.CollectWellFormed | jobs/crawling/thinkyou.py:392-397 | each row adds at most one record or exclusion, and a record only with a non-empty, not all-digit title |
| Thinkyou.CrawlUnfold | jobs/crawling/thinkyou.py:382-417 | one page contributes its active rows' outcomes, followed by the later pages unless it had no active rows or showed a closed row |
| Thinkyou.StopsAtClosed | jobs/crawling/thinkyou.py:402-405 | the pages after the one on which a closed contest was found are never looked at |
| Thinkyou.StopsAtEmpty | jobs/crawling/thinkyou.py:387-389 | a page with no active rows ends the run, contributing nothing |
| Thinkyou.CrawlWellFormed | jobs/crawling/thinkyou.py:382-417 | every outcome of the run is well formed |
| Thinkyou.CollectedTitles | jobs/crawling/thinkyou.py:363-429 | every collected record has a non-empty title that is not all digits, and records and exclusions together number the rows that yield one |
| Thinkyou.ExtractContestInfo | jobs/crawling/thinkyou.py:248-361 | the result is the row's record, and the exclusion list grows by its exclusion, if any |
| Thinkyou.CollectRow | jobs/crawling/thinkyou.py:393-400 | one turn keeps the row's record unless its title is all digits, appending its exclusion |
| Thinkyou.ExtractPage | jobs/crawling/thinkyou.py:392-400 | the row loop collects the kept records of the active rows in order and appends their exclusions in the same order |
| Thinkyou.CrawlThinkyouContests | jobs/crawling/thinkyou.py:363-429 | the records and exclusions are exactly those of the run over the reached pages, in order |
| Thinkyou.Saved | jobs/crawling/thinkyou.py:436 | the saved list is the first five records, or all of them when there are fewer |
| Personality.MatchCount | routers/personality.py:128-131 | the match count never exceeds the number of required tags |
| Personality.MatchCountAll | routers/personality.py:133-134 | the match count equals the number of required tags iff every required tag is among the trait values |
| Personality.BestIsBest | routers/personality.py:121-142 | nothing is found iff no qualifying rule scores above -1; otherwise the pick qualifies, scores `1000 - priority + match_count` above every other qualifying rule before it and at least as high as every one after it |
| Personality.BestMatchUnique | routers/personality.py:138-140 | at most one rule is the pick |
| Personality.EmptyRuleMatches | routers/personality.py:129-140 | a rule without required tags qualifies for any traits, so a table holding one with priority at most 1000 always yields a profile |
| Personality.FindMatchingProfile | routers/personality.py:116-142 | the loop returns the best qualifying rule as specified, or nothing |
| Personality.CountMatches | routers/personality.py:128-131 | the inner loop counts the required tags that are trait values |
| Personality.TraitsErrors | routers/personality.py:62-75 | the traits are built iff every answer's option and question exist; otherwise the error is that of the first bad answer, naming its unknown option before its question |
| Personality.TraitsStep | routers/personality.py:77 | the last answer sets its question's key to its option's tag over the traits of the earlier answers |
| Personality.TraitsKeys | routers/personality.py:61-77 | the traits hold one entry per key name answered, and no other |
| Personality.TraitsLastWins | routers/personality.py:77 | each key holds the tag chosen by the last answer with that key |
| Personality.BuildTraits | routers/personality.py:61-77 | the answers loop returns the traits map, or the first error |
| Personality.TraitsPrefixErr | routers/personality.py:62-75 | an error among the first answers is the error of the whole request, whatever follows |
| Personality.TestOutcomeQualifies | routers/personality.py:79-105 | a successful test reports a rule all of whose required tags were chosen, with those traits |
| Personality.PersonalityService.SubmitPersonalityTest | routers/personality.py:56-105 | the result is the test's outcome, and a trait profile with the user, the profile code and the traits is saved iff it succeeds |
| Registration.StatusCode | routers/registration.py:610-632 | a refusal is answered with 404 iff it is the unknown session of the status query, with 500 iff it is an exception caught by the completion, and with 400 otherwise |
| Registration.Step1Overwrites | routers/registration.py:258-264 | a successful step 1 replaces any session of the user by a fresh one at step 1 with only step 1 done, and leaves every other user's session alone |
| Registration.StripNonBlankLength | routers/registration.py:294-302 | the collected custom names are exactly as many as the non-blank inputs |
| Registration.StripNonBlankClean | routers/registration.py:330-341 | each collected custom name is non-empty and stripped |
| Registration.StripNonBlankCovers | routers/registration.py:329-341 | each non-blank input is collected in its stripped form |
| Registration.FirstWhere | routers/registration.py:310-326 | the index returned lies within the list |
| Registration.FirstWhereSpec | routers/registration.py:310-326 | nothing is found iff no element is bad; otherwise the element at the index is bad and all before it are good |
| Registration.FirstWherePrefix | routers/registration.py:310-326 | a bad element among the first ones is the one reported for the whole list |
| Registration.FinalChecksUnreachable | routers/registration.py:360-370 | the final "valid skill" and "valid role" checks of step 2 never refuse, because the count checks at the start already refused those requests |
| Registration.CleanedAccepts | routers/registration.py:294-370 | once the counts were positive, the cleaned lists leave at least one skill and one role |
| Registration.Step2Accepts | routers/registration.py:293-376 | step 2 accepts iff some skill and some role are chosen, every chosen id is known and no custom name is taken; it stores the chosen ids and the stripped non-blank custom names in order |
| Registration.SkillExistsNamesTaken | routers/registration.py:329-339 | a refused custom skill name is one of the typed names, reported exactly as typed, whose stripped form is already known |
| Registration.CheckIds | routers/registration.py:310-326 | the validation loop returns the index of the first unknown id, if any |
| Registration.CollectCustom | routers/registration.py:328-357 | the custom-name loop returns the index of the first taken name, or, when there is none, the stripped non-blank names |
| Registration.ValidateStep2 | routers/registration.py:293-370 | the checks of step 2 after the session check give the specified outcome, in the source's order |
| Registration.UpdateKeepsSessionsOk | routers/registration.py:259-264 | replacing one user's session by a well-formed one keeps every session well formed |
| Registration.Step1KeepsSessionsOk | routers/registration.py:233-264 | step 1 keeps every session well formed: it belongs to its user, its step is 1 to 4 with the data of each step up to it, and its completed steps run from 1 to the current step |
| Registration.Step2KeepsSessionsOk | routers/registration.py:283-379 | step 2 keeps every session well formed |
| Registration.Step3KeepsSessionsOk | routers/registration.py:398-412 | step 3 keeps every session well formed |
| Registration.Step4KeepsSessionsOk | routers/registration.py:432-453 | step 4 keeps every session well formed |
| Registration.StepGuards | routers/registration.py:285-453 | a refused step changes no session; step 2 is refused for an unknown user; step 3 is refused iff the user has no session or it is before step 2; step 4 iff it is before step 3 or the answers are not four |
| Registration.Step2Rerun | routers/registration.py:376-379 | re-running step 2 moves a later session back to step 2 and lists step 2 once more among the completed steps |
| Registration.StatusSpec | routers/registration.py:624-639 | the status is a 404 refusal iff the user has no session; otherwise it reports completion iff the session reached step 4 |
| Registration.FourStepsComplete | routers/registration.py:233-639 | steps 1 to 4 in order, each accepted, leave a session whose status is step 4, complete, with steps 1 to 4 done |
| Registration.RunTest | routers/registration.py:562-588 | the traits loop and profile search give the personality test's outcome |
| Registration.CompletionSpec | routers/registration.py:472-596 | completion needs a session at step 4 and a matching profile; the account carries the session's user, e-mail, custom names and experiences, the traits of its answers and the best-matching profile |
| Registration.WithCustomFresh | routers/registration.py:499-531 | inserting a sign-up's custom skills and roles stores every custom name, keeps every stored id and gives each custom skill and role a fresh autoincrement id, which a later step 2 accepts |
| Registration.IdRangeMembers | models/skill.py:8 | an autoincrement key hands out exactly the `n` ids from its next value on |
| Registration.CompletionAsWritten | routers/registration.py:499-617 | as written, a finished session with custom skill or role names is refused with the caught exception, and, database constraints aside, any other one completes as intended |
| Registration.CustomSkillRefusedAsWritten | routers/registration.py:501-503 | a finished session with the custom skill "Flutter" completes as intended but is refused as written |
| Registration.RegistrationService.CompleteStep1 | routers/registration.py:233-272 | a taken user id, then a taken e-mail, then a bad code refuse in that order and change no session; otherwise a fresh session is stored |
| Registration.RegistrationService.CompleteStep2 | routers/registration.py:283-390 | the sessions and response are those of step 2 on the catalogue |
| Registration.RegistrationService.CompleteStep3 | routers/registration.py:398-424 | the sessions and response are those of step 3 |
| Registration.RegistrationService.CompleteStep4 | routers/registration.py:432-464 | the sessions and response are those of step 4 |
| Registration.RegistrationService.CompleteRegistration | routers/registration.py:472-613 | a refusal changes nothing; a completion adds the account, its user id and e-mail, inserts its custom names with fresh ids, marks the e-mail verified and deletes the session |
| Registration.RegistrationService.Commit | routers/registration.py:483-605 | the inserts add exactly the account, its user id and e-mail and its custom names with fresh ids, mark the e-mail verified and delete the session |
| Registration.RegistrationService.GetRegistrationStatus | routers/registration.py:624-639 | the result is the session's status, or the 404 refusal |
| EmailAuth.GenerateVerificationCode | utils/email_auth.py:39-41 | the code has the requested length (none for a negative one) and is made of decimal digits only |
| EmailAuth.EveryCodeIsPossible | utils/email_auth.py:39-41 | every digit string of the requested length is a code that can be drawn |
| EmailAuth.UnexpiredExact | utils/email_auth.py:18-37 | cleanup removes exactly the entries whose expiry is strictly before now, keeping one that expires at now, and leaves the others' data as it was |
| EmailAuth.UnexpiredTwice | utils/email_auth.py:18-37 | cleaning at one instant and then at a later one is the same as cleaning once at the later one |
| EmailAuth.CheckCode | utils/email_auth.py:99-111 | the check succeeds iff the address has a pending code equal to the one given, and a success consumes that code while a failure leaves the codes as they were |
| EmailAuth.StoreThenVerify | utils/email_auth.py:80-111 | a stored code verifies at any instant up to its expiry, and not after it |
| EmailAuth.StoreReplaces | utils/email_auth.py:85-88 | storing a second code for an address replaces the first: only the newest verifies |
| EmailAuth.VerifySingleUse | utils/email_auth.py:106-109 | a successful verification consumes the code, so the same code fails the second time |
| EmailAuth.WrongCodeKeeps | utils/email_auth.py:100-111 | a wrong code fails and the stored code stays, still verifying until it expires |
| EmailAuth.MarkThenVerified | utils/email_auth.py:116-136 | a verified mark set at some instant is seen exactly until 24 hours later |
| EmailAuth.Store.CleanupExpiredData | utils/email_auth.py:18-37 | both dictionaries lose exactly the entries that expired before now |
| EmailAuth.Store.Default | config.py:28 | a store under the default configuration starts empty and keeps codes for 10 minutes |
| EmailAuth.Store.StoreVerificationCode | utils/email_auth.py:80-92 | the address's code is replaced by the new one, expiring the configured number of minutes after now, and the call succeeds |
| EmailAuth.Store.VerifyEmailCode | utils/email_auth.py:94-114 | after the cleanup, the result and the remaining codes are those of the check on the live codes |
| EmailAuth.Store.IsEmailVerified | utils/email_auth.py:116-125 | after the cleanup, the result is whether the address has an unexpired verified mark |
| EmailAuth.Store.MarkEmailAsVerified | utils/email_auth.py:127-139 | the address is marked at now, expiring 24 hours later, and the call succeeds |
| EmailAuth.DeleteAll | utils/email_auth.py:28-29 | the deletion loop removes exactly the given keys |
| Preprocessing.DistinctSnoc | ml/preprocessing.py:275 | the distinct values of a list with one more value are the earlier ones plus that value |
| Preprocessing.DistinctCount | ml/preprocessing.py:275-284 | there are at most as many distinct values as values, and exactly as many iff no value repeats |
| Preprocessing.NoDuplicatesSnoc | ml/preprocessing.py:283 | appending a value not yet present keeps a list duplicate-free, and only a duplicate-free list |
| Preprocessing.OneDistinct | ml/preprocessing.py:281-282 | a non-empty list has one distinct value iff all its values are equal |
| Preprocessing.DiversityScoreSpec | ml/preprocessing.py:269-287 | the diversity is 0 for no values, 30 for one, 40 when all are equal, 70 when all are distinct, and 90 otherwise |
| Preprocessing.PenaltyFactor | ml/preprocessing.py:50-61 | the penalty lies in (0, 1] and is exactly 1 outside teams of one to four members |
| Preprocessing.PenaltyIncreasing | ml/preprocessing.py:50-61 | among non-empty teams the penalty never gets harsher as the team grows, strictly easing up to five members |
| Preprocessing.LeaderBand | ml/preprocessing.py:241-249 | the band score is one of 100, 80, 60 and 30; it is 100 iff the ratio is in [0.2, 0.4], at least 80 iff in [0.1, 0.5], at least 60 iff in [0.05, 0.6] |
| Preprocessing.LeaderCount | ml/preprocessing.py:231-236 | there are never more leaders than members |
| Preprocessing.LeaderRatio | ml/preprocessing.py:239 | the leader ratio lies between 0 and 1, and is 0 for an empty team |
| Preprocessing.LeadershipDistribution | ml/preprocessing.py:229-253 | the method returns the band score of the leader ratio times the penalty |
| Preprocessing.CountLeaders | ml/preprocessing.py:231-236 | the loop counts the members whose tendency type is `LEADER` |
| Preprocessing.NoLeaders | ml/preprocessing.py:239-253 | a team without leaders, the empty team included, scores the lowest band, 30 times the penalty |
| Preprocessing.ZeroLeaders | ml/preprocessing.py:234-236 | a team without leaders has a leader count of 0 |
| Preprocessing.FiveWithFewLeaders | ml/preprocessing.py:242-243 | in a team of five, one or two leaders score the full 100, because the band's ends are inclusive |
| Preprocessing.ParseEntry | ml/preprocessing.py:175-190 | an entry that parses contains a `:` |
| Preprocessing.PairScore | ml/preprocessing.py:183-188 | a pair scores iff its field is the contest's, 100 for an award and 50 for any other status |
| Preprocessing.Scores | ml/preprocessing.py:173-190 | every score is 50 or 100, and there are no more scores than pairs |
| Preprocessing.ScoresAppend | ml/preprocessing.py:174-190 | the scores of consecutive runs of pairs are those of each run, in order |
| Preprocessing.ScoresOfOtherFields | ml/preprocessing.py:183 | pairs of other fields contribute nothing |
| Preprocessing.PairsSnoc | ml/preprocessing.py:174-190 | one more entry adds its pair, if it parses, after the earlier ones |
| Preprocessing.EntryWithoutColon | ml/preprocessing.py:176 | an entry without `:` adds nothing, wherever it stands |
| Preprocessing.EntryWithTwoColons | ml/preprocessing.py:178 | an entry with a second `:` does not unpack into two parts and adds nothing |
| Preprocessing.EntryOfParts | ml/preprocessing.py:178-180 | an entry `a:b` with one colon parses to the integers of its two stripped parts when both are integers, and to nothing otherwise |
| Preprocessing.EntryNotInteger | ml/preprocessing.py:179-190 | an entry whose two parts are not both integers adds nothing |
| Preprocessing.WellFormedEntry | ml/preprocessing.py:175-180 | the entry written as `str(filter_id) + ":" + str(award_status)` parses back to the pair |
| Preprocessing.IntegerTextTrimmed | ml/preprocessing.py:179-180 | the decimal text of an integer has no surrounding whitespace |
| Preprocessing.ParseExperiences | ml/preprocessing.py:172-190 | the parsing loop for one member gives the scores of the parsed pairs of its experience string |
| Preprocessing.EntryStep | ml/preprocessing.py:174-190 | one more entry adds its score when it parses and is in the contest's field |
| Preprocessing.SumBounds | ml/preprocessing.py:193 | the sum of scores between 50 and 100 lies between 50 and 100 times their number |
| Preprocessing.MeanBounds | ml/preprocessing.py:193 | a mean of values within bounds lies within those bounds |
| Preprocessing.MemberScoreBounds | ml/preprocessing.py:192-194 | a member's experience score is 0 without a matching entry and between 50 and 100 with one |
| Preprocessing.ExperienceTotalBounds | ml/preprocessing.py:164-197 | the members' experience scores add up to between 0 and 100 times the number of members |
| Preprocessing.AverageExperienceBounds | ml/preprocessing.py:196-197 | the team's average experience score, before the penalty, lies between 0 and 100 |
| Preprocessing.UniformTeamScores | ml/preprocessing.py:203-267 | in a team of two or more whose members agree on all four traits, every column and the style have diversity 40, so both scores are 40 times the penalty |
| Preprocessing.SingleMemberScores | ml/preprocessing.py:50-53 | a one-member team scores 30 times its 0.2 penalty, that is 6, on alignment, style and leadership |
| Preprocessing.ContestName | ml/preprocessing.py:15-18 | a contest id has a field name iff it is one of 1 to 6 |
| Preprocessing.TeamVector | ml/preprocessing.py:29-47 | a missing matrix is reported first, then a contest id outside 1 to 6, and a vector is produced iff neither occurs |
| Preprocessing.TeamVectorFeatures | ml/preprocessing.py:38-47 | a vector has exactly the eight named features; the size factor is the penalty, and the leadership and experience scores are as calculated |
| Preprocessing.MemberNames | ml/preprocessing.py:69-70 | splitting a role or skill field always gives at least one name |
| Preprocessing.EmptyFieldOneBlankName | ml/preprocessing.py:69-74 | an empty field gives one empty name, so the `if not roles or not skills` guard never fires |
| MessageGenerator.TableCoversVector | ml/message_generator.py:10-47 | every feature of the team vector has messages, and the table's only other feature is `team_size_limitation` |
| MessageGenerator.GoodAndBadDiffer | ml/message_generator.py:10-47 | each feature's good and bad messages differ |
| MessageGenerator.ScoreLevel | ml/message_generator.py:49-56 | the level is high iff the score is at least 80, medium iff it is at least 50 and below 80, low iff it is below 50 |
| MessageGenerator.ScoreLevelMonotone | ml/message_generator.py:49-56 | a higher score never has a lower level |
| MessageGenerator.ContributionType | ml/message_generator.py:58-63 | a contribution is good iff it is strictly positive |
| MessageGenerator.GenerateMessages | ml/message_generator.py:65-113 | the loop over the good points and then the bad ones builds the specified summary and analysis |
| MessageGenerator.UnknownSkipped | ml/message_generator.py:83-85 | points whose feature has no messages leave no trace in the result |
| MessageGenerator.SummaryOrder | ml/message_generator.py:87-102 | the summary lists keep input order: the good list holds the entries of the known points equal to some good point, the bad list those of the others |
| MessageGenerator.SummaryCount | ml/message_generator.py:82-102 | every known point lands in exactly one of the two summary lists |
| MessageGenerator.GoodPointsFirst | ml/message_generator.py:76-102 | when no bad point equals a good one, the good list is the known good points and the bad list the known bad points, each with its message and in input order |
| MessageGenerator.DetailedKeys | ml/message_generator.py:104-111 | the detailed analysis has one key per known feature of the points, and no other |
| MessageGenerator.DetailedLast | ml/message_generator.py:104-111 | a feature's detailed analysis is that of its last point: its score, the score's level, typed good iff the point equals a good point, with that type's message |
| Synergy.MapTagsToFields | routers/synergy.py:185-204 | the loop gives the mapping of the required tags |
| Synergy.LastIn | routers/synergy.py:194-202 | a field is unset iff no tag of its pair occurs, and when set it holds a tag of the pair that occurs |
| Synergy.LastInIsLast | routers/synergy.py:194-202 | the tag a field holds is the last occurrence of a tag of its pair |
| Synergy.MappedLastTags | routers/synergy.py:185-204 | each of `tendency_type`, `goal`, `time` and `problem` holds the last tag of its pair, and stays unset when no tag of the pair occurs |
| Synergy.OtherTagIgnored | routers/synergy.py:194-202 | a tag outside the four pairs changes nothing, wherever it stands |
| Synergy.OrUnknown | routers/synergy.py:252-255 | a set, non-empty field is kept and an unset one becomes `UNKNOWN` |
| Synergy.NamesString | routers/synergy.py:167-183 | no names give the empty string and one name gives that name |
| Synergy.NamesRoundTrip | routers/synergy.py:173-174 | splitting the joined role or skill names back on `,` and stripping each, as the feature code does, recovers names that are trimmed and contain no `,` |
| Synergy.NoNamesOneBlank | routers/synergy.py:174 | a user with no roles or skills gets one blank name from the feature code |
| Synergy.ExperienceItem | routers/synergy.py:163 | an experience entry contains no `,` and has no surrounding whitespace |
| Synergy.UserExperienceString | routers/synergy.py:152-165 | the loop gives the user's experience entries joined by `", "`, or the empty string when there are none |
| Synergy.PairsOfEntries | routers/synergy.py:161-165 | entries that each parse to their pair give back those pairs, in order |
| Synergy.ExperienceRoundTrip | routers/synergy.py:152-165 | the feature code's experience parser recovers every `(filter_id, award_status)` pair of the experience string, in order |
| Synergy.ExperienceScoresOfUser | routers/synergy.py:152-165 | so a member's experience scores are those of the user's experiences in the contest's field |
| Synergy.ApplicantFields | routers/synergy.py:236-256 | an applicant's style fields hold the last tag of each pair of its profile's required tags, `UNKNOWN` when there is none or no profile, and its experience string parses back to its experiences |
| Synergy.ApplicantLeader | routers/synergy.py:236-256 | an applicant counts as a leader iff the last tendency tag of its profile is `LEADER` |

## Left out

**I/O, processes and concurrency**
- Subprocess execution, its 300-second timeout, the `time.sleep` pacing and temporary-file deletion are left out. JSON file reads and writes become input and output values.
- HTTP requests, Selenium, the BeautifulSoup selectors and ThinkYou's pagination clicks are left out. The text the selectors would extract is the model's input, and a failed request is an input outcome.
- The `excluded_contests=None` defaults of the adapter functions are left out: the model always passes an exclusion list, as every call inside the adapters does. With `None` the source appends no exclusion.
- The per-element and outer `try`/`except` blocks of the adapters are modelled only where they decide an outcome: ThinkYou's eligibility error, and Linkareer's parse failure yielding nothing. Other exceptions, such as a category failure that returns the contests collected so far, are I/O failures that are not modelled.
- The email store's lock, its background cleanup thread and SMTP sending (`send_verification_email`) are left out, because they are I/O and concurrency. The model is sequential, and the clock is a parameter.
- The random draw of a verification code is an oracle sequence of digits.

**Foreign libraries**
- TagGenerator.Tagger.Enqueue, TagGenerator.Tagger.Turn and TagGenerator.Tagger.ExtractLoop: the `except Exception` path of the per-entry loop (jobs/analyzer.py:645-657) is not modelled. Downloading, the model call, keyword cleaning and the checkpoint write (jobs/analyzer.py:634-635) are treated as never raising. As written, a failed checkpoint write comes after the contest was appended (lines 629-630), so the except path rewrites that same dict's `tags` to `분석 오류: …` and its `filtering` to the title's tag and appends it a second time. `results` then holds the contest twice, and the one-entry-per-unprocessed-contest promise of TagGenerator.TagAllMembers and TagGenerator.Tagger.ExtractLoop does not hold for the source.
- Image processing (PIL resizing, alpha flattening, JPEG quality, base64) is left out; only the size arithmetic is kept. The fingerprint of a poster is an oracle. The image cache is keyed by the link itself, not by the link's MD5 digest. Distinct links have distinct digests in practice, so the cache behaves the same.
- The Ollama call and its prompt are left out; the model's responses are an oracle sequence.
- SQLAlchemy sessions, commit and rollback are left out, along with notifications. The contest table is the set of its `(poster_url, site_url)` pairs. The user, skill, role and experience queries of the routers are inputs: sets of ids and names, and lists of rows.
- Password hashing, JWT issuing and the response messages of the registration endpoints are left out.
- The request schemas of `schemas/registration.py` are not modelled:
  - RegistrationStep2, RegistrationStep3 and RegistrationStep4 declare no `user_id`, yet the endpoints read `step2.user_id` and the like. The model takes the user id as an explicit argument of steps 2 to 4.
  - The RegistrationStep2 validators read the field being validated through `values.get(...)`. Pydantic fills `values` only with the fields declared before it, so as written they refuse every step 2 request. The model assumes such requests reach the endpoint, whose own checks it models.
- Database constraints are not modelled, so the model completes where the database would refuse:
  - `complete_registration` builds `Experience` rows without `filter_id`, a NOT NULL column;
  - two equal custom names in one request break the unique `name` column of `skills` or `roles`;
  - `save_contests_to_db` builds `Contest` rows without `prize` (jobs/analyzer.py:123-129), a NOT NULL column (models/contest.py:15). Under a strict SQL mode every insert's flush then fails and the contest is counted as skipped; the model counts it as inserted.
- Registration.RegistrationService.CompleteRegistration and Registration.RegistrationService.Commit follow the intended insert of custom skills and roles. The code as written refuses them, which CompletionAsWritten records (see "## Findings").
- Synergy.UserExperienceString: `models/experience.py` declares no `award_status` column, so as written `exp.award_status` (routers/synergy.py:163) raises AttributeError for every user with at least one experience, and the handler at routers/synergy.py:275-279 turns that into a 500 response for the whole analysis. The model takes the experience rows as `(filter_id, award_status)` pairs and builds the string the router evidently means to build.
- Outside the modelled e-mail store: nothing in the routers calls `store_verification_code` (utils/email_auth.py:80). `send_email_verification` calls `send_verification_email(request.email)` (routers/registration.py:70) with one argument, but the function takes two (utils/email_auth.py:43). As written that raises TypeError, answered with 500 at routers/registration.py:81-84, so no code is ever stored and step 1 can never verify. The model assumes a code was stored through EmailAuth.Store.StoreVerificationCode.
- `get_questions`, `get_user_profile` and the other CRUD endpoints are left out; they are thin database plumbing.

**Numbers and text**
- TagGenerator.OptimalSizeUpscales and TagGenerator.OptimalSize: the source computes `int(width * max(400/width, 400/height))` and `int(height * (1200/width))` on floats and truncates, so a side can come out one pixel short of the exact value: 97×97 gives 399×399 in the source and 400×400 in the model, 29×145 gives (400, 1999) against (400, 2000), and 539×1617 gives (399, 1200) against (400, 1200). The model computes the sizes in exact integer arithmetic, and the promise that the shorter side is exactly 400 holds only for it; the downscaling bound of TagGenerator.OptimalSizeDownscales is not affected by this.
- Scores are exact `real`s rather than floats. `round(v, 2)`, the `np.mean` of the role and contest matrices and the rounding in `routers/synergy.py:54-77` are left out. The role-skill and contest-relevance features come in as inputs.
- Preprocessing.ExperienceRelevance: only the team's average experience, before the penalty, is bounded (Preprocessing.AverageExperienceBounds). A bound on the penalised value is not stated.
- Keywords.IsWordChar: the regex class `\w` is modelled as ASCII letters, digits, `_` and Hangul. Python also accepts other Unicode letters and digits.
- Text.LowerAscii: `lower()` is modelled on ASCII letters only.
- Text.ParseInt: `int()` is modelled as accepting only an optional sign followed by ASCII digits. Python's `int()` also strips surrounding whitespace, which the model leaves to its callers: they strip first (ml/preprocessing.py:179-180). Underscores and non-ASCII digits are rejected.
- Thinkyou.Kept: `str.isdigit` is modelled on ASCII digits only. Python also counts other Unicode digits, such as "١٢٣" or "²", so a title made only of those is dropped by the source but kept by the model. The same holds for Thinkyou.CollectRow, Thinkyou.CollectWellFormed and Thinkyou.CollectedTitles.
- Records: a JSON record is a map from field names to strings. The adapters store and read only string fields; JSON null, numbers, booleans and lists as field values are not represented.
- Dates: `strptime` is modelled on fixed-width numbers only (four-digit year, two-digit month and day). Python's more lenient single-digit forms are not accepted.

**Other**
- MessageGenerator.ContributionType: `_get_contribution_type` is modelled, but `generate_messages` does not call it, because the source types a point by membership in `good_points`.
- Linkareer.PosterPathDoubled: the doubled slash in relative Linkareer poster URLs is modelled as written.

## Findings

| source | as written | input that shows it | evidently intended | confidence | as-written member | corrected member |
|---|---|---|---|---|---|---|
| routers/registration.py:501-503 | `Skill(name=..., is_custom=True)` and `Role(name=..., is_custom=True)` (lines 525-527) pass a column that neither `models/skill.py` nor `models/role.py` declares. The constructor raises, the handler at lines 617-622 rolls back and answers 500, and the session stays. | a session at step 4 whose step 2 stored the custom skill "Flutter" | each custom skill and role is inserted under a fresh autoincrement id and linked to the user | not executed | Registration.CompletionAsWritten, Registration.CustomSkillRefusedAsWritten | Registration.WithCustomFresh, Registration.RegistrationService.Commit |
