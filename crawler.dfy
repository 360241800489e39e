/**
 * The integrated crawler (`CrawlingExecutor`): it orders the per-site crawler
 * scripts, collects what each run leaves in its temporary artifacts, prunes
 * expired catalog entries, merges new records into the catalog keyed by a
 * fingerprint of the poster image, and keeps a ledger of exclusions.
 *
 * The subprocess runs, the files under `data/` and the poster download are
 * inputs and outputs of the model: a run's outcome is given per script, the
 * stored files are fields, and the fingerprint of a poster URL is an oracle.
 */
module Crawler {
  import opened Wrappers
  import opened Text
  import opened Records
  import opened Dates

  /** An MD5 hex digest: 32 characters, never empty. */
  type Digest = s: string | |s| == 32 witness "00000000000000000000000000000000"

  /** A directory entry of the `crawling/` folder. */
  datatype DirEntry = DirEntry(name: string, isFile: bool)

  /**
   * A JSON file as the crawler reads it. `NonListDoc` is any other value that
   * `json.load(f) or []` leaves iterable or replaces by `[]`: an object, a
   * string, or a false value; iterating it yields no object. `ScalarDoc` is a
   * non-zero number or `true`, which `or []` keeps and which cannot be iterated.
   */
  datatype Doc = Missing | Unreadable | ListDoc(items: seq<Item>) | NonListDoc | ScalarDoc

  /** How a crawler script run ended, with the temporary artifacts it left behind. */
  datatype RunOutcome =
    | TimedOut
    | Crashed
    | Exited(code: int, contests: Doc, excluded: Doc)

  datatype Reason = ExistingDuplicate | ConflictWithExisting | DuplicateInNew

  /** One row of `duplicate_posters.json`. */
  datatype DuplicateEntry = DuplicateEntry(
    reason: Reason, hash: Digest, title: Option<string>, siteUrl: Option<string>, posterUrl: Option<string>)

  const ExecutionOrder: seq<string> := ["thinkyou.py", "linkareer.py", "contestkorea.py"]

  /* ---------------------------------------------------------------- scripts */

  predicate IsScript(e: DirEntry) {
    e.isFile && EndsWith(e.name, ".py") && e.name != "__init__.py"
  }

  /** The files the glob `*.py` yields that are regular files other than `__init__.py`, in discovery order. */
  function Candidates(listing: seq<DirEntry>): (names: seq<string>)
    ensures |names| <= |listing|
  {
    if listing == [] then []
    else
      var init, e := listing[..|listing| - 1], listing[|listing| - 1];
      Candidates(init) + (if IsScript(e) then [e.name] else [])
  }

  lemma {:induction false} CandidatesMembers(listing: seq<DirEntry>)
    ensures forall n :: n in Candidates(listing) <==> exists e :: e in listing && e.name == n && IsScript(e)
  {
    if listing != [] {
      var init, e := listing[..|listing| - 1], listing[|listing| - 1];
      CandidatesMembers(init);
      assert listing == init + [e];
      assert forall x :: x in listing <==> x in init || x == e;
    }
  }

  /** The names of `order` that occur in `files`, in the order of `order`. */
  function PresentIn(order: seq<string>, files: seq<string>): (r: seq<string>)
    ensures |r| <= |order|
  {
    if order == [] then []
    else
      var init, n := order[..|order| - 1], order[|order| - 1];
      PresentIn(init, files) + (if n in files then [n] else [])
  }

  lemma {:induction false} PresentInMembers(order: seq<string>, files: seq<string>)
    ensures forall n :: n in PresentIn(order, files) <==> n in order && n in files
    ensures NoDuplicates(order) ==> NoDuplicates(PresentIn(order, files))
  {
    if order != [] {
      var init, n := order[..|order| - 1], order[|order| - 1];
      PresentInMembers(init, files);
      assert order == init + [n];
      if NoDuplicates(order) {
        DistinctInit(order);
        PresentInSnocDistinct(PresentIn(init, files), n, files);
      }
    }
  }

  lemma PresentInSnocDistinct(p: seq<string>, n: string, files: seq<string>)
    requires NoDuplicates(p) && n !in p
    ensures NoDuplicates(p + (if n in files then [n] else []))
  {
    if n in files {
      forall i | 0 <= i < |p| ensures (p + [n])[i] == p[i] { }
    }
  }

  lemma PresentInStep(order: seq<string>, files: seq<string>, k: nat)
    requires k < |order|
    ensures PresentIn(order[..k + 1], files) == PresentIn(order[..k], files) + (if order[k] in files then [order[k]] else [])
  {
    assert order[..k + 1][..k] == order[..k];
  }

  /** `s` without the elements of `names`, in order. */
  function Without(s: seq<string>, names: seq<string>): (r: seq<string>)
    ensures |r| <= |s|
  {
    if s == [] then []
    else
      var init, n := s[..|s| - 1], s[|s| - 1];
      Without(init, names) + (if n in names then [] else [n])
  }

  lemma {:induction false} WithoutMembers(s: seq<string>, names: seq<string>)
    ensures forall n :: n in Without(s, names) <==> n in s && n !in names
  {
    if s != [] {
      var init, n := s[..|s| - 1], s[|s| - 1];
      WithoutMembers(init, names);
      assert s == init + [n];
      assert forall x :: x in s <==> x in init || x == n;
    }
  }

  /** The test `n not in names` of the last loop, as a function value. */
  function NotIn(names: seq<string>): string -> bool {
    n => n !in names
  }

  /** The scripts left for the last loop are those found, filtered by `not in`, in order and with repeats kept. */
  lemma {:induction false} WithoutIsFilter(s: seq<string>, names: seq<string>)
    ensures Without(s, names) == Filter(s, NotIn(names))
  {
    if s != [] {
      WithoutIsFilter(s[..|s| - 1], names);
    }
  }

  /** The order in which the scripts run. */
  function ScriptOrder(files: seq<string>): seq<string> {
    PresentIn(ExecutionOrder, files) + Dedup(Without(files, ExecutionOrder))
  }

  /**
   * Every candidate script runs exactly once and nothing else runs; the
   * scripts of the execution order that are present come first, in that order.
   */
  lemma {:induction false} ScriptOrderRunsEachOnce(files: seq<string>)
    ensures NoDuplicates(ScriptOrder(files))
    ensures forall n :: n in ScriptOrder(files) <==> n in files
    ensures ScriptOrder(files)[..|PresentIn(ExecutionOrder, files)|] == PresentIn(ExecutionOrder, files)
    ensures forall n :: n in PresentIn(ExecutionOrder, files) <==> n in ExecutionOrder && n in files
  {
    var w := Without(files, ExecutionOrder);
    var a, b := PresentIn(ExecutionOrder, files), Dedup(w);
    assert NoDuplicates(ExecutionOrder);
    PresentInMembers(ExecutionOrder, files);
    WithoutMembers(files, ExecutionOrder);
    ConcatDistinct(a, b, ExecutionOrder);
    ConcatCovers(a, b, w, files, ExecutionOrder);
  }

  /** Two duplicate-free sequences, one inside `order` and one outside it, concatenate without duplicates. */
  lemma ConcatDistinct(a: seq<string>, b: seq<string>, order: seq<string>)
    requires NoDuplicates(a) && NoDuplicates(b)
    requires forall i :: 0 <= i < |a| ==> a[i] in order
    requires forall i :: 0 <= i < |b| ==> b[i] !in order
    ensures NoDuplicates(a + b)
  {
    forall i, j | 0 <= i < j < |a + b| ensures (a + b)[i] != (a + b)[j] {
      if j < |a| {
        assert (a + b)[i] == a[i] && (a + b)[j] == a[j];
      } else if i >= |a| {
        assert (a + b)[i] == b[i - |a|] && (a + b)[j] == b[j - |a|];
      } else {
        assert (a + b)[i] == a[i] && (a + b)[j] == b[j - |a|];
      }
    }
  }

  /** The scripts of `order` that are present, followed by all the others, are all the scripts. */
  lemma ConcatCovers(a: seq<string>, b: seq<string>, w: seq<string>, files: seq<string>, order: seq<string>)
    requires forall n :: n in a <==> n in order && n in files
    requires forall i :: 0 <= i < |b| ==> b[i] in w
    requires forall i :: 0 <= i < |w| ==> w[i] in b
    requires forall n :: n in w <==> n in files && n !in order
    ensures forall n :: n in a + b <==> n in files
  {
    forall n | n in files ensures n in a + b {
      if n !in order {
        var k :| 0 <= k < |w| && w[k] == n;
      }
    }
    forall n | n in a + b ensures n in files {
      if n in b {
        var k :| 0 <= k < |b| && b[k] == n;
      }
    }
  }

  /** One step of the second loop of `get_crawling_files`, for any execution order. */
  lemma OrderStep(order: seq<string>, files: seq<string>, j: nat)
    requires j < |files|
    ensures var present := PresentIn(order, files);
            var before := present + Dedup(Without(files[..j], order));
            present + Dedup(Without(files[..j + 1], order))
              == if files[j] in before then before else before + [files[j]]
  {
    if files[j] in order {
      OrderStepPriority(order, files, j);
    } else {
      OrderStepOther(order, files, j);
    }
  }

  lemma OrderStepPriority(order: seq<string>, files: seq<string>, j: nat)
    requires j < |files| && files[j] in order
    ensures Without(files[..j + 1], order) == Without(files[..j], order)
    ensures files[j] in PresentIn(order, files)
  {
    WithoutStep(files, order, j);
    PresentInMembers(order, files);
  }

  lemma OrderStepOther(order: seq<string>, files: seq<string>, j: nat)
    requires j < |files| && files[j] !in order
    ensures var present := PresentIn(order, files);
            var before := present + Dedup(Without(files[..j], order));
            present + Dedup(Without(files[..j + 1], order))
              == if files[j] in before then before else before + [files[j]]
  {
    WithoutStep(files, order, j);
    PresentInMembers(order, files);
    DedupSnocAfter(PresentIn(order, files), Without(files[..j], order), files[j]);
  }

  lemma WithoutStep(s: seq<string>, names: seq<string>, j: nat)
    requires j < |s|
    ensures Without(s[..j + 1], names) == Without(s[..j], names) + (if s[j] in names then [] else [s[j]])
  {
    assert s[..j + 1][..j] == s[..j];
  }

  /* -------------------------------------------------------------- end dates */

  const EndDateLayouts: seq<Layout> :=
    [Layout("-", "-", ""), Layout(".", ".", ""), Layout("/", "/", ""), Layout(" ", " ", "")]

  /** `_parse_end_date`: `%Y-%m-%d`, `%Y.%m.%d`, `%Y/%m/%d`, `%Y %m %d`, tried in that order. */
  function ParseEndDate(s: string): (r: Option<Date>)
    ensures r.Some? ==> ValidDate(r.value) && exists k :: 0 <= k < |EndDateLayouts| && s == Format(r.value, EndDateLayouts[k])
  {
    if s == "" then None
    else
      FirstParseFormat(s, EndDateLayouts);
      FirstParse(s, EndDateLayouts)
  }

  /** Each of the four renderings of a valid date parses back to it. */
  lemma ParseEndDateFormat(d: Date, k: nat)
    requires ValidDate(d) && k < |EndDateLayouts|
    ensures ParseEndDate(Format(d, EndDateLayouts[k])) == Some(d)
  {
    var s := Format(d, EndDateLayouts[k]);
    forall j | 0 <= j < k ensures Parse(s, EndDateLayouts[j]).None? {
      SeparatorMismatch(d, EndDateLayouts[k], EndDateLayouts[j]);
    }
    ParseFormat(d, EndDateLayouts[k]);
    FirstParseSkips(s, EndDateLayouts, k);
  }

  /** `_is_not_expired`: no end date, an end date in no known format, or one on or after today. */
  predicate IsNotExpired(c: Record, today: Date) {
    var e := GetOr(c, "end_date", "");
    e == "" || ParseEndDate(e).None? || OnOrBefore(today, ParseEndDate(e).value)
  }

  /** `filtered_existing`: the object entries that have not expired, in order. */
  function Prune(xs: seq<Item>, today: Date): (r: seq<Record>)
    ensures |r| <= |xs|
  {
    if xs == [] then []
    else
      var rest := Prune(xs[1..], today);
      match xs[0]
      case Dict(c) => if IsNotExpired(c, today) then [c] + rest else rest
      case NonDict => rest
  }

  /** An existing entry survives pruning iff it is an object that has not expired. */
  lemma {:induction false} PruneKeeps(xs: seq<Item>, today: Date)
    ensures forall c :: c in Prune(xs, today) <==> Dict(c) in xs && IsNotExpired(c, today)
  {
    if xs != [] {
      PruneKeeps(xs[1..], today);
      assert forall c :: Dict(c) in xs <==> Dict(c) == xs[0] || Dict(c) in xs[1..];
    }
  }

  /* ----------------------------------------------------------- fingerprints */

  /** `_get_image_hash`: no fingerprint for an empty or `N/A` URL, otherwise the fetch oracle's. */
  function ImageHash(fetch: string -> Option<Digest>, url: string): (h: Option<Digest>)
    ensures url == "" || url == "N/A" ==> h.None?
    ensures url != "" && url != "N/A" ==> h == fetch(url)
  {
    if url == "" || url == "N/A" then None else fetch(url)
  }

  function PosterHash(fetch: string -> Option<Digest>, c: Record): Option<Digest> {
    ImageHash(fetch, GetOr(c, "poster_url", ""))
  }

  /** A fingerprint as a set: empty when there is none. */
  function HashSet(h: Option<Digest>): set<Digest> {
    if h.Some? then {h.value} else {}
  }

  /** The fingerprints of the records. */
  function HashesOf(fetch: string -> Option<Digest>, cs: seq<Record>): set<Digest>
  {
    if cs == [] then {} else HashesOf(fetch, cs[..|cs| - 1]) + HashSet(PosterHash(fetch, cs[|cs| - 1]))
  }

  lemma {:induction false} HashesOfMembers(fetch: string -> Option<Digest>, cs: seq<Record>)
    ensures forall h :: h in HashesOf(fetch, cs) <==> exists i :: 0 <= i < |cs| && PosterHash(fetch, cs[i]) == Some(h)
  {
    if cs != [] {
      var init := cs[..|cs| - 1];
      HashesOfMembers(fetch, init);
      assert forall i :: 0 <= i < |init| ==> init[i] == cs[i];
    }
  }

  function Entry(reason: Reason, h: Digest, c: Record): DuplicateEntry {
    DuplicateEntry(reason, h, Get(c, "title"), Get(c, "site_url"), Get(c, "poster_url"))
  }

  /** Ledger rows with the given reason for the fingerprinted records, in order. */
  function Ledger(reason: Reason, fetch: string -> Option<Digest>, cs: seq<Record>): (r: seq<DuplicateEntry>)
    ensures forall i :: 0 <= i < |r| ==> r[i].reason == reason
  {
    if cs == [] then []
    else
      (match PosterHash(fetch, cs[0]) case Some(h) => [Entry(reason, h, cs[0])] case None => [])
      + Ledger(reason, fetch, cs[1..])
  }

  /* ------------------------------------- the merge, as the loops compute it */

  /** The existing-entries loop: a ledger row for every fingerprint already seen. */
  function ExistingPass(cs: seq<Record>, fetch: string -> Option<Digest>, seen: set<Digest>): seq<DuplicateEntry>
  {
    if cs == [] then []
    else
      var h := PosterHash(fetch, cs[0]);
      if h.None? then ExistingPass(cs[1..], fetch, seen)
      else
        (if h.value in seen then [Entry(ExistingDuplicate, h.value, cs[0])] else [])
        + ExistingPass(cs[1..], fetch, seen + {h.value})
  }

  /** The incoming-records loop over `new_list`: the kept records and the ledger rows. */
  function IncomingPass(xs: seq<Item>, fetch: string -> Option<Digest>, known: set<Digest>, seenNew: set<Digest>)
    : (seq<Record>, seq<DuplicateEntry>)
  {
    if xs == [] then ([], [])
    else match xs[0]
      case NonDict => IncomingPass(xs[1..], fetch, known, seenNew)
      case Dict(c) =>
        var h := PosterHash(fetch, c);
        if h.None? then
          var rest := IncomingPass(xs[1..], fetch, known, seenNew);
          ([c] + rest.0, rest.1)
        else if h.value in known || h.value in seenNew then
          var rest := IncomingPass(xs[1..], fetch, known, seenNew);
          var reason := if h.value in known then ConflictWithExisting else DuplicateInNew;
          (rest.0, [Entry(reason, h.value, c)] + rest.1)
        else
          var rest := IncomingPass(xs[1..], fetch, known + {h.value}, seenNew + {h.value});
          ([c] + rest.0, rest.1)
  }

  /* --------------------------------------- the merge, stated independently */

  /**
   * The record at `k` has no fingerprint, or one that is not in `known` and that
   * no earlier record has.
   */
  predicate FirstSeen(cs: seq<Record>, k: nat, fetch: string -> Option<Digest>, known: set<Digest>)
    requires k < |cs|
  {
    var h := PosterHash(fetch, cs[k]);
    h.None? || (h.value !in known && forall j :: 0 <= j < k ==> PosterHash(fetch, cs[j]) != h)
  }

  /** The fingerprint of the record at `k` is in `seen` or an earlier record's. */
  predicate Repeated(cs: seq<Record>, k: nat, fetch: string -> Option<Digest>, seen: set<Digest>)
    requires k < |cs|
  {
    PosterHash(fetch, cs[k]).Some? && !FirstSeen(cs, k, fetch, seen)
  }

  /** `FirstSeen` for every position, computed front to back. */
  function FirstSeenFlags(cs: seq<Record>, fetch: string -> Option<Digest>, known: set<Digest>): (v: seq<bool>)
    ensures |v| == |cs|
  {
    if cs == [] then []
    else
      var h := PosterHash(fetch, cs[0]);
      [h.None? || h.value !in known] + FirstSeenFlags(cs[1..], fetch, known + HashSet(h))
  }

  /** `Repeated` for every position, computed front to back. */
  function RepeatFlags(cs: seq<Record>, fetch: string -> Option<Digest>, seen: set<Digest>): (v: seq<bool>)
    ensures |v| == |cs|
  {
    if cs == [] then []
    else
      var h := PosterHash(fetch, cs[0]);
      [h.Some? && h.value in seen] + RepeatFlags(cs[1..], fetch, seen + HashSet(h))
  }

  lemma FirstSeenShift(cs: seq<Record>, k: nat, fetch: string -> Option<Digest>, known: set<Digest>)
    requires 0 < k < |cs|
    ensures FirstSeen(cs, k, fetch, known) == FirstSeen(cs[1..], k - 1, fetch, known + HashSet(PosterHash(fetch, cs[0])))
  {
    var h0, hk := PosterHash(fetch, cs[0]), PosterHash(fetch, cs[k]);
    assert cs[1..][k - 1] == cs[k];
    assert (forall j :: 0 <= j < k ==> PosterHash(fetch, cs[j]) != hk)
       <==> h0 != hk && (forall j :: 0 <= j < k - 1 ==> PosterHash(fetch, cs[1..][j]) != hk) by {
      forall j | 0 <= j < k - 1 ensures cs[1..][j] == cs[j + 1] { }
    }
  }

  /** The flag at each position is exactly the closed-form `FirstSeen`. */
  lemma {:induction false} FirstSeenFlagsAt(cs: seq<Record>, fetch: string -> Option<Digest>, known: set<Digest>, k: nat)
    requires k < |cs|
    ensures FirstSeenFlags(cs, fetch, known)[k] == FirstSeen(cs, k, fetch, known)
  {
    if k > 0 {
      FirstSeenFlagsAt(cs[1..], fetch, known + HashSet(PosterHash(fetch, cs[0])), k - 1);
      FirstSeenShift(cs, k, fetch, known);
    }
  }

  /** The flag at each position is exactly the closed-form `Repeated`. */
  lemma {:induction false} RepeatFlagsAt(cs: seq<Record>, fetch: string -> Option<Digest>, seen: set<Digest>, k: nat)
    requires k < |cs|
    ensures RepeatFlags(cs, fetch, seen)[k] == Repeated(cs, k, fetch, seen)
  {
    if k > 0 {
      RepeatFlagsAt(cs[1..], fetch, seen + HashSet(PosterHash(fetch, cs[0])), k - 1);
      FirstSeenShift(cs, k, fetch, seen);
      assert cs[1..][k - 1] == cs[k];
    }
  }

  /** The elements of `cs` whose flag is `want`, in order. */
  function Pick(cs: seq<Record>, flags: seq<bool>, want: bool): (r: seq<Record>)
    requires |flags| == |cs|
    ensures |r| <= |cs|
  {
    if cs == [] then [] else (if flags[0] == want then [cs[0]] else []) + Pick(cs[1..], flags[1..], want)
  }

  /** Each record lands in exactly one of the two picks. */
  lemma {:induction false} PickSplits(cs: seq<Record>, flags: seq<bool>)
    requires |flags| == |cs|
    ensures |Pick(cs, flags, true)| + |Pick(cs, flags, false)| == |cs|
  {
    if cs != [] { PickSplits(cs[1..], flags[1..]); }
  }

  /**
   * The existing-entries loop writes a row, with reason `existing-duplicate`,
   * exactly for each entry whose fingerprint an earlier entry (or `seen`) has.
   */
  lemma {:induction false} ExistingPassRepeats(cs: seq<Record>, fetch: string -> Option<Digest>, seen: set<Digest>)
    ensures ExistingPass(cs, fetch, seen) == Ledger(ExistingDuplicate, fetch, Pick(cs, RepeatFlags(cs, fetch, seen), true))
  {
    if cs != [] {
      var h0 := PosterHash(fetch, cs[0]);
      ExistingPassRepeats(cs[1..], fetch, seen + HashSet(h0));
      var flags := RepeatFlags(cs, fetch, seen);
      assert flags[1..] == RepeatFlags(cs[1..], fetch, seen + HashSet(h0));
      var rest := Pick(cs[1..], flags[1..], true);
      if h0.Some? && h0.value in seen {
        assert Pick(cs, flags, true) == [cs[0]] + rest;
        assert ([cs[0]] + rest)[1..] == rest;
        assert ExistingPass(cs, fetch, seen) == [Entry(ExistingDuplicate, h0.value, cs[0])] + ExistingPass(cs[1..], fetch, seen + {h0.value});
      } else {
        assert Pick(cs, flags, true) == rest;
        if h0.None? {
          assert seen + HashSet(h0) == seen;
        }
      }
    }
  }

  /**
   * The incoming-records loop keeps exactly the records that are first-seen with
   * respect to the existing fingerprints, and writes a `conflict-with-existing`
   * row for every other one; `duplicate-in-new` never occurs.
   */
  lemma {:induction false} IncomingPassFirstSeen(xs: seq<Item>, fetch: string -> Option<Digest>, known: set<Digest>, seenNew: set<Digest>)
    requires seenNew <= known
    ensures IncomingPass(xs, fetch, known, seenNew)
         == (Pick(Dicts(xs), FirstSeenFlags(Dicts(xs), fetch, known), true),
             Ledger(ConflictWithExisting, fetch, Pick(Dicts(xs), FirstSeenFlags(Dicts(xs), fetch, known), false)))
  {
    if xs != [] {
      match xs[0]
      case NonDict =>
        IncomingPassFirstSeen(xs[1..], fetch, known, seenNew);
      case Dict(c) =>
        var ds := Dicts(xs);
        assert ds[0] == c && ds[1..] == Dicts(xs[1..]);
        var h := PosterHash(fetch, c);
        var v := FirstSeenFlags(ds, fetch, known);
        assert v[1..] == FirstSeenFlags(ds[1..], fetch, known + HashSet(h));
        if h.None? {
          assert known + HashSet(h) == known;
          IncomingPassFirstSeen(xs[1..], fetch, known, seenNew);
          var kept := Pick(ds[1..], v[1..], true);
          assert Pick(ds, v, true) == [c] + kept;
          assert Pick(ds, v, false) == Pick(ds[1..], v[1..], false);
        } else if h.value in known {
          assert known + HashSet(h) == known;
          IncomingPassFirstSeen(xs[1..], fetch, known, seenNew);
          var dropped := Pick(ds[1..], v[1..], false);
          assert Pick(ds, v, false) == [c] + dropped;
          assert ([c] + dropped)[1..] == dropped;
          assert Pick(ds, v, true) == Pick(ds[1..], v[1..], true);
        } else {
          IncomingPassFirstSeen(xs[1..], fetch, known + {h.value}, seenNew + {h.value});
          var kept := Pick(ds[1..], v[1..], true);
          assert Pick(ds, v, true) == [c] + kept;
          assert Pick(ds, v, false) == Pick(ds[1..], v[1..], false);
        }
    }
  }

  /** The fingerprinted records have pairwise distinct fingerprints, none of them in `known`. */
  predicate FreshHashes(kept: seq<Record>, fetch: string -> Option<Digest>, known: set<Digest>) {
    (forall i :: 0 <= i < |kept| && PosterHash(fetch, kept[i]).Some? ==> PosterHash(fetch, kept[i]).value !in known)
    && (forall i, j :: 0 <= i < j < |kept| && PosterHash(fetch, kept[i]).Some? ==> PosterHash(fetch, kept[i]) != PosterHash(fetch, kept[j]))
  }

  /**
   * The fingerprints of the kept incoming records are pairwise distinct and
   * none of them is already `known`.
   */
  lemma {:induction false} KeptHashesFresh(xs: seq<Item>, fetch: string -> Option<Digest>, known: set<Digest>, seenNew: set<Digest>)
    ensures FreshHashes(IncomingPass(xs, fetch, known, seenNew).0, fetch, known)
  {
    if xs != [] {
      match xs[0]
      case NonDict =>
        KeptHashesFresh(xs[1..], fetch, known, seenNew);
      case Dict(c) =>
        var h := PosterHash(fetch, c);
        if h.Some? && (h.value in known || h.value in seenNew) {
          KeptHashesFresh(xs[1..], fetch, known, seenNew);
        } else {
          var known', seen' := known + HashSet(h), seenNew + HashSet(h);
          if h.None? { assert known' == known && seen' == seenNew; }
          KeptHashesFresh(xs[1..], fetch, known', seen');
          var rest := IncomingPass(xs[1..], fetch, known', seen').0;
          var kept := [c] + rest;
          assert IncomingPass(xs, fetch, known, seenNew).0 == kept;
          assert FreshHashes(rest, fetch, known');
          forall i, j | 0 <= i < j < |kept| && PosterHash(fetch, kept[i]).Some?
            ensures PosterHash(fetch, kept[i]) != PosterHash(fetch, kept[j])
          {
            assert kept[j] == rest[j - 1];
            if i > 0 { assert kept[i] == rest[i - 1]; }
            else if PosterHash(fetch, rest[j - 1]).Some? { assert PosterHash(fetch, rest[j - 1]).value !in known'; }
          }
          forall i | 0 <= i < |kept| && PosterHash(fetch, kept[i]).Some?
            ensures PosterHash(fetch, kept[i]).value !in known
          {
            if i > 0 { assert kept[i] == rest[i - 1]; }
          }
        }
    }
  }

  /** The catalog and the duplicates ledger a merge produces. */
  function MergedCatalog(existing: seq<Item>, incoming: seq<Item>, fetch: string -> Option<Digest>, today: Date): seq<Record> {
    var pruned := Prune(existing, today);
    var ds := Dicts(incoming);
    pruned + Pick(ds, FirstSeenFlags(ds, fetch, HashesOf(fetch, pruned)), true)
  }

  function MergedDuplicates(existing: seq<Item>, incoming: seq<Item>, fetch: string -> Option<Digest>, today: Date): seq<DuplicateEntry> {
    var pruned := Prune(existing, today);
    var ds := Dicts(incoming);
    Ledger(ExistingDuplicate, fetch, Pick(pruned, RepeatFlags(pruned, fetch, {}), true))
    + Ledger(ConflictWithExisting, fetch, Pick(ds, FirstSeenFlags(ds, fetch, HashesOf(fetch, pruned)), false))
  }

  /** A ledger file's list, or `[]` when it is absent, unreadable or not a list. */
  function ListOrEmpty(d: Doc): seq<Item> {
    if d.ListDoc? then d.items else []
  }

  function AsItems(cs: seq<Record>): (r: seq<Item>)
    ensures |r| == |cs| && forall i :: 0 <= i < |cs| ==> r[i] == Dict(cs[i])
  {
    if cs == [] then [] else [Dict(cs[0])] + AsItems(cs[1..])
  }

  /** What a finished run contributes to the collected contests, or to the collected exclusions. */
  function AcceptedContests(o: RunOutcome): seq<Item> {
    if o.Exited? && o.code == 0 && o.contests.ListDoc? then o.contests.items else []
  }

  function AcceptedExclusions(o: RunOutcome): seq<Item> {
    if o.Exited? && o.code == 0 && o.excluded.ListDoc? then o.excluded.items else []
  }

  function CollectContests(files: seq<string>, run: string -> RunOutcome): seq<Item> {
    if files == [] then [] else CollectContests(files[..|files| - 1], run) + AcceptedContests(run(files[|files| - 1]))
  }

  function CollectExclusions(files: seq<string>, run: string -> RunOutcome): seq<Item> {
    if files == [] then [] else CollectExclusions(files[..|files| - 1], run) + AcceptedExclusions(run(files[|files| - 1]))
  }

  lemma CollectStep(files: seq<string>, run: string -> RunOutcome, i: nat)
    requires i < |files|
    ensures CollectContests(files[..i + 1], run) == CollectContests(files[..i], run) + AcceptedContests(run(files[i]))
    ensures CollectExclusions(files[..i + 1], run) == CollectExclusions(files[..i], run) + AcceptedExclusions(run(files[i]))
  {
    assert files[..i + 1][..i] == files[..i];
  }

  /** The scripts `run_all_crawling` runs, in order. */
  function RunOrder(dirExists: bool, listing: seq<DirEntry>): seq<string> {
    if dirExists then ScriptOrder(Candidates(listing)) else []
  }

  /** One step of the stored-records loop of the merge. */
  lemma FingerprintStep(cs: seq<Record>, fetch: string -> Option<Digest>, seen: set<Digest>, i: nat)
    requires i < |cs|
    ensures HashesOf(fetch, cs[..i + 1]) == HashesOf(fetch, cs[..i]) + HashSet(PosterHash(fetch, cs[i]))
    ensures var h := PosterHash(fetch, cs[i]);
            ExistingPass(cs[i..], fetch, seen)
              == if h.None? then ExistingPass(cs[i + 1..], fetch, seen)
                 else (if h.value in seen then [Entry(ExistingDuplicate, h.value, cs[i])] else [])
                      + ExistingPass(cs[i + 1..], fetch, seen + {h.value})
  {
    assert cs[..i + 1][..i] == cs[..i];
    assert cs[i..][1..] == cs[i + 1..];
  }

  class CrawlingExecutor {
    var allContests: seq<Item>
    var excludedContests: seq<Item>
    var duplicatePosters: seq<DuplicateEntry>
    /** `data/all_contests.json`, `data/duplicate_posters.json` and `data/excluded_contests.json`. */
    var catalogFile: Doc
    var duplicatesFile: Option<seq<DuplicateEntry>>
    var excludedFile: Doc

    constructor (catalog: Doc, excluded: Doc)
      ensures allContests == [] && excludedContests == [] && duplicatePosters == []
      ensures catalogFile == catalog && duplicatesFile == None && excludedFile == excluded
    {
      allContests, excludedContests, duplicatePosters := [], [], [];
      catalogFile, duplicatesFile, excludedFile := catalog, None, excluded;
    }

    /** `get_crawling_files`. */
    method GetCrawlingFiles(dirExists: bool, listing: seq<DirEntry>) returns (files: seq<string>)
      ensures files == RunOrder(dirExists, listing)
    {
      if !dirExists { return []; }
      var found := FindScripts(listing);
      var present := SortByOrder(found);
      files := AppendOthers(found, present);
    }

    /** The glob loop of `get_crawling_files`. */
    method FindScripts(listing: seq<DirEntry>) returns (found: seq<string>)
      ensures found == Candidates(listing)
    {
      found := [];
      var i := 0;
      while i < |listing|
        invariant 0 <= i <= |listing|
        invariant found == Candidates(listing[..i])
      {
        var e := listing[i];
        if e.isFile && EndsWith(e.name, ".py") && e.name != "__init__.py" {
          found := found + [e.name];
        }
        assert listing[..i + 1][..i] == listing[..i];
        i := i + 1;
      }
      assert listing[..i] == listing;
    }

    /** The loop over the execution order: each listed script that was found, in that order. */
    method SortByOrder(found: seq<string>) returns (sorted: seq<string>)
      ensures sorted == PresentIn(ExecutionOrder, found)
    {
      sorted := [];
      var k := 0;
      while k < |ExecutionOrder|
        invariant 0 <= k <= |ExecutionOrder|
        invariant sorted == PresentIn(ExecutionOrder[..k], found)
      {
        var j := Find(found, ExecutionOrder[k]);
        PresentInStep(ExecutionOrder, found, k);
        if j < |found| {
          sorted := sorted + [found[j]];
        }
        k := k + 1;
      }
      assert ExecutionOrder[..k] == ExecutionOrder;
    }

    /** The position of `name` in `found`, or `|found|` when it is not there. */
    method Find(found: seq<string>, name: string) returns (j: nat)
      ensures j <= |found|
      ensures j < |found| ==> found[j] == name
      ensures j == |found| <==> name !in found
    {
      j := 0;
      while j < |found| && found[j] != name
        invariant 0 <= j <= |found|
        invariant forall m :: 0 <= m < j ==> found[m] != name
      {
        j := j + 1;
      }
    }

    /** The last loop of `get_crawling_files`: the remaining scripts, once each, in discovery order. */
    method AppendOthers(found: seq<string>, present: seq<string>) returns (sorted: seq<string>)
      requires present == PresentIn(ExecutionOrder, found)
      ensures sorted == present + Dedup(Without(found, ExecutionOrder))
    {
      sorted := present;
      var j := 0;
      while j < |found|
        invariant 0 <= j <= |found|
        invariant sorted == present + Dedup(Without(found[..j], ExecutionOrder))
      {
        var f := found[j];
        OrderStep(ExecutionOrder, found, j);
        if f !in sorted {
          sorted := sorted + [f];
        }
        j := j + 1;
      }
      assert found[..j] == found;
    }

    /** `execute_crawling_file`: a zero exit status admits each artifact that is a JSON list. */
    method ExecuteCrawlingFile(outcome: RunOutcome)
      modifies this`allContests, this`excludedContests
      ensures allContests == old(allContests) + AcceptedContests(outcome)
      ensures excludedContests == old(excludedContests) + AcceptedExclusions(outcome)
    {
      match outcome
      case Exited(code, contests, excluded) =>
        if code == 0 {
          if contests.ListDoc? {
            allContests := allContests + contests.items;
          }
          if excluded.ListDoc? {
            excludedContests := excludedContests + excluded.items;
          }
        }
      case _ =>
    }

    /** `_merge_by_poster_hash`: prune the stored list, fingerprint it, then admit the new records. */
    method MergeByPosterHash(existing: seq<Item>, incoming: seq<Item>, fetch: string -> Option<Digest>, today: Date)
      returns (merged: seq<Record>, duplicates: seq<DuplicateEntry>)
      ensures merged == MergedCatalog(existing, incoming, fetch, today)
      ensures duplicates == MergedDuplicates(existing, incoming, fetch, today)
    {
      var filtered := PruneExpired(existing, today);
      var existingHashes, existingRows := FingerprintExisting(filtered, fetch);
      var uniqueNew, newRows := AdmitIncoming(incoming, fetch, existingHashes);
      merged := filtered + uniqueNew;
      duplicates := existingRows + newRows;
      ExistingPassRepeats(filtered, fetch, {});
      IncomingPassFirstSeen(incoming, fetch, existingHashes, {});
    }

    /** Step 1 of the merge: the stored records that are dictionaries and not expired. */
    method PruneExpired(existing: seq<Item>, today: Date) returns (filtered: seq<Record>)
      ensures filtered == Prune(existing, today)
    {
      filtered := [];
      var i := 0;
      while i < |existing|
        invariant 0 <= i <= |existing|
        invariant filtered + Prune(existing[i..], today) == Prune(existing, today)
      {
        assert existing[i..][1..] == existing[i + 1..];
        if existing[i].Dict? && IsNotExpired(existing[i].fields, today) {
          AppendAssoc(filtered, [existing[i].fields], Prune(existing[i + 1..], today));
          filtered := filtered + [existing[i].fields];
        }
        i := i + 1;
      }
    }

    /** Step 2 of the merge: the fingerprints of the stored records, and a row per repeated one. */
    method FingerprintExisting(filtered: seq<Record>, fetch: string -> Option<Digest>)
      returns (existingHashes: set<Digest>, duplicates: seq<DuplicateEntry>)
      ensures existingHashes == HashesOf(fetch, filtered)
      ensures duplicates == ExistingPass(filtered, fetch, {})
    {
      var seenExisting: set<Digest> := {};
      existingHashes := {};
      duplicates := [];
      var i := 0;
      assert filtered[0..] == filtered && filtered[..0] == [];
      while i < |filtered|
        invariant 0 <= i <= |filtered|
        invariant seenExisting == existingHashes
        invariant existingHashes == HashesOf(fetch, filtered[..i])
        invariant duplicates + ExistingPass(filtered[i..], fetch, seenExisting) == ExistingPass(filtered, fetch, {})
      {
        var c := filtered[i];
        var h := PosterHash(fetch, c);
        FingerprintStep(filtered, fetch, seenExisting, i);
        ghost var rest := ExistingPass(filtered[i + 1..], fetch, seenExisting + HashSet(h));
        if h.Some? {
          var row := if h.value in seenExisting then [Entry(ExistingDuplicate, h.value, c)] else [];
          assert ExistingPass(filtered[i..], fetch, seenExisting) == row + rest;
          AppendAssoc(duplicates, row, rest);
          duplicates := duplicates + row;
          seenExisting := seenExisting + {h.value};
          existingHashes := existingHashes + {h.value};
        } else {
          assert seenExisting + HashSet(h) == seenExisting;
        }
        i := i + 1;
      }
      assert filtered[..i] == filtered;
      assert filtered[i..] == [];
    }

    /** Step 3 of the merge: the new records whose fingerprint is new, and a row per rejected one. */
    method AdmitIncoming(incoming: seq<Item>, fetch: string -> Option<Digest>, known: set<Digest>)
      returns (uniqueNew: seq<Record>, duplicates: seq<DuplicateEntry>)
      ensures (uniqueNew, duplicates) == IncomingPass(incoming, fetch, known, {})
    {
      var existingHashes := known;
      var seenNew: set<Digest> := {};
      uniqueNew, duplicates := [], [];
      ghost var target := IncomingPass(incoming, fetch, known, {});
      assert incoming[0..] == incoming;
      var i := 0;
      while i < |incoming|
        invariant 0 <= i <= |incoming|
        invariant uniqueNew + IncomingPass(incoming[i..], fetch, existingHashes, seenNew).0 == target.0
        invariant duplicates + IncomingPass(incoming[i..], fetch, existingHashes, seenNew).1 == target.1
      {
        assert incoming[i..][1..] == incoming[i + 1..];
        if incoming[i].Dict? {
          var c := incoming[i].fields;
          var h := PosterHash(fetch, c);
          if h.None? {
            AppendAssoc(uniqueNew, [c], IncomingPass(incoming[i + 1..], fetch, existingHashes, seenNew).0);
            uniqueNew := uniqueNew + [c];
          } else if h.value in existingHashes || h.value in seenNew {
            var reason := if h.value in existingHashes then ConflictWithExisting else DuplicateInNew;
            AppendAssoc(duplicates, [Entry(reason, h.value, c)], IncomingPass(incoming[i + 1..], fetch, existingHashes, seenNew).1);
            duplicates := duplicates + [Entry(reason, h.value, c)];
          } else {
            AppendAssoc(uniqueNew, [c], IncomingPass(incoming[i + 1..], fetch, existingHashes + {h.value}, seenNew + {h.value}).0);
            uniqueNew := uniqueNew + [c];
            existingHashes := existingHashes + {h.value};
            seenNew := seenNew + {h.value};
          }
        }
        i := i + 1;
      }
      assert incoming[i..] == [];
      assert IncomingPass(incoming[i..], fetch, existingHashes, seenNew) == ([], []);
      assert uniqueNew == target.0 && duplicates == target.1;
    }

    /**
     * `save_all_results`: merge the collected contests into the stored catalog and
     * rewrite both files; a stored number or `true` makes the merge raise, which
     * is logged, and nothing is written.
     */
    method SaveAllResults(fetch: string -> Option<Digest>, today: Date)
      modifies this`catalogFile, this`duplicatePosters, this`duplicatesFile
      ensures old(catalogFile).ScalarDoc? ==>
                catalogFile == old(catalogFile) && duplicatePosters == old(duplicatePosters)
                && duplicatesFile == old(duplicatesFile)
      ensures !old(catalogFile).ScalarDoc? ==>
              var existing := ListOrEmpty(old(catalogFile));
              catalogFile == ListDoc(AsItems(MergedCatalog(existing, allContests, fetch, today)))
              && duplicatePosters == MergedDuplicates(existing, allContests, fetch, today)
              && duplicatesFile == Some(duplicatePosters)
    {
      if catalogFile.ScalarDoc? {
        return;
      }
      var existing := ListOrEmpty(catalogFile);
      var merged, duplicates := MergeByPosterHash(existing, allContests, fetch, today);
      catalogFile := ListDoc(AsItems(merged));
      duplicatePosters := duplicates;
      duplicatesFile := Some(duplicates);
    }

    /** `save_excluded_results`: the stored list (or `[]`) followed by the collected exclusions, no dedup. */
    method SaveExcludedResults()
      modifies this`excludedFile
      ensures excludedFile == ListDoc(ListOrEmpty(old(excludedFile)) + excludedContests)
    {
      var existing := ListOrEmpty(excludedFile);
      excludedFile := ListDoc(existing + excludedContests);
    }

    /** The loop of `run_all_crawling` that runs each script in turn. */
    method ExecuteAll(files: seq<string>, run: string -> RunOutcome)
      modifies this`allContests, this`excludedContests
      ensures allContests == old(allContests) + CollectContests(files, run)
      ensures excludedContests == old(excludedContests) + CollectExclusions(files, run)
    {
      var i := 0;
      while i < |files|
        invariant 0 <= i <= |files|
        invariant allContests == old(allContests) + CollectContests(files[..i], run)
        invariant excludedContests == old(excludedContests) + CollectExclusions(files[..i], run)
      {
        ExecuteNext(files, run, i, old(allContests), old(excludedContests));
        i := i + 1;
      }
      assert files[..i] == files;
    }

    /** One turn of the loop of `run_all_crawling`: the script at `i`. */
    method ExecuteNext(files: seq<string>, run: string -> RunOutcome, i: nat, ghost contests0: seq<Item>, ghost excluded0: seq<Item>)
      requires i < |files|
      requires allContests == contests0 + CollectContests(files[..i], run)
      requires excludedContests == excluded0 + CollectExclusions(files[..i], run)
      modifies this`allContests, this`excludedContests
      ensures allContests == contests0 + CollectContests(files[..i + 1], run)
      ensures excludedContests == excluded0 + CollectExclusions(files[..i + 1], run)
    {
      CollectStep(files, run, i);
      var o := run(files[i]);
      AppendAssoc(contests0, CollectContests(files[..i], run), AcceptedContests(o));
      AppendAssoc(excluded0, CollectExclusions(files[..i], run), AcceptedExclusions(o));
      ExecuteCrawlingFile(o);
    }

    /** `run_all_crawling`: run every script in order, then save what was collected, if anything. */
    method RunAllCrawling(dirExists: bool, listing: seq<DirEntry>, run: string -> RunOutcome,
                          fetch: string -> Option<Digest>, today: Date)
      modifies this`allContests, this`excludedContests, this`catalogFile, this`duplicatePosters
      modifies this`duplicatesFile, this`excludedFile
      ensures allContests == old(allContests) + CollectContests(RunOrder(dirExists, listing), run)
      ensures excludedContests == old(excludedContests) + CollectExclusions(RunOrder(dirExists, listing), run)
      ensures RunOrder(dirExists, listing) == [] ==>
                catalogFile == old(catalogFile) && duplicatesFile == old(duplicatesFile) && excludedFile == old(excludedFile)
      ensures RunOrder(dirExists, listing) != [] ==>
                SavedFrom(old(catalogFile), old(duplicatesFile), old(excludedFile), fetch, today)
    {
      var files := GetCrawlingFiles(dirExists, listing);
      if files == [] { return; }
      ghost var catalog0, duplicates0, excluded0 := catalogFile, duplicatesFile, excludedFile;
      ExecuteAll(files, run);
      assert catalogFile == catalog0 && duplicatesFile == duplicates0 && excludedFile == excluded0;
      SaveCollected(fetch, today);
      assert SavedFrom(catalog0, duplicates0, excluded0, fetch, today);
    }

    /**
     * The files after the save phase, given the files before it: the catalogue is
     * rewritten only when something was collected and the stored catalogue can be
     * iterated, the exclusions only when some were.
     */
    ghost predicate SavedFrom(catalog0: Doc, duplicates0: Option<seq<DuplicateEntry>>, excluded0: Doc,
                              fetch: string -> Option<Digest>, today: Date)
      reads this
    {
      (allContests != [] && !catalog0.ScalarDoc? ==>
         catalogFile == ListDoc(AsItems(MergedCatalog(ListOrEmpty(catalog0), allContests, fetch, today)))
         && duplicatesFile == Some(MergedDuplicates(ListOrEmpty(catalog0), allContests, fetch, today)))
      && (allContests == [] || catalog0.ScalarDoc? ==> catalogFile == catalog0 && duplicatesFile == duplicates0)
      && (excludedContests != [] ==> excludedFile == ListDoc(ListOrEmpty(excluded0) + excludedContests))
      && (excludedContests == [] ==> excludedFile == excluded0)
    }

    /** The end of `run_all_crawling`: save the catalogue and the exclusions, each only if non-empty. */
    method SaveCollected(fetch: string -> Option<Digest>, today: Date)
      modifies this`catalogFile, this`duplicatePosters, this`duplicatesFile, this`excludedFile
      ensures SavedFrom(old(catalogFile), old(duplicatesFile), old(excludedFile), fetch, today)
    {
      if allContests != [] {
        SaveAllResults(fetch, today);
      }
      if excludedContests != [] {
        SaveExcludedResults();
      }
    }
  }

}
