/**
 * The keyword rules of the poster analyser: reading a model answer
 * ("k1, k2, k3, category") into tokens, validating it, repairing it,
 * deriving keywords from a title when the model fails, classifying a title
 * into one of the six filter categories, and cleaning punctuation out of a
 * keyword.
 */
module Keywords {
  import opened Wrappers
  import opened Text

  const NoResponse := "분석 응답 없음"
  const AnalysisFailed := "분석 실패"
  const AnalysisError := "분석 오류"
  const Sentinels: seq<string> := [NoResponse, AnalysisFailed, AnalysisError]

  /** The filter categories a valid answer must end with. */
  const ValidCategories: seq<string> := ["웹/앱", "데이터분석", "AI", "아이디어", "기획", "IOT"]

  const Idea := "아이디어"

  /* ------------------------------------------------------------- tokens */

  /** The pieces, stripped, without the ones that strip to nothing. */
  function NonEmptyStripped(ps: seq<string>): (ts: seq<string>)
    ensures |ts| <= |ps|
    ensures forall k :: 0 <= k < |ts| ==> ts[k] != "" && Trimmed(ts[k])
  {
    if ps == [] then []
    else
      var t := Strip(ps[|ps| - 1]);
      StripIsTrimmed(ps[|ps| - 1]);
      NonEmptyStripped(ps[..|ps| - 1]) + (if t == "" then [] else [t])
  }

  lemma StripIsTrimmed(s: string)
    ensures Trimmed(Strip(s))
  {
  }

  /** `[k.strip() for k in s.split(',') if k.strip()]`. */
  function Tokens(s: string): seq<string> {
    NonEmptyStripped(Split(s, ','))
  }

  /** The non-empty strings of `xs`, in order. */
  function NonEmpty(xs: seq<string>): (r: seq<string>)
    ensures |r| <= |xs|
  {
    if xs == [] then []
    else NonEmpty(xs[..|xs| - 1]) + (if xs[|xs| - 1] == "" then [] else [xs[|xs| - 1]])
  }

  lemma {:induction false} NonEmptyAll(xs: seq<string>)
    requires forall k :: 0 <= k < |xs| ==> xs[k] != ""
    ensures NonEmpty(xs) == xs
  {
    if xs != [] {
      NonEmptyAll(xs[..|xs| - 1]);
    }
  }

  /** Stripping piece by piece and dropping the empties is dropping the empties of the stripped pieces. */
  lemma {:induction false} NonEmptyStrippedOf(ps: seq<string>, xs: seq<string>)
    requires |ps| == |xs|
    requires forall k :: 0 <= k < |ps| ==> Strip(ps[k]) == xs[k]
    ensures NonEmptyStripped(ps) == NonEmpty(xs)
  {
    if ps != [] {
      NonEmptyStrippedOf(ps[..|ps| - 1], xs[..|xs| - 1]);
    }
  }

  /** `', '.join(ks) + ', ' + cat`: how the analyser writes an answer. */
  function Render(ks: seq<string>, cat: string): string {
    Join(ks, ", ") + ", " + cat
  }

  lemma {:induction false} RenderJoin(ks: seq<string>, cat: string)
    requires |ks| >= 1
    ensures Render(ks, cat) == Join(ks + [cat], ", ")
    decreases |ks|
  {
    var xs := ks + [cat];
    if |ks| > 1 {
      assert xs[1..] == ks[1..] + [cat];
      RenderJoin(ks[1..], cat);
    } else {
      assert xs[1..] == [cat];
    }
  }

  /** A keyword that renders as its own token: trimmed and free of commas. */
  predicate Renderable(k: string) { Trimmed(k) && ',' !in k }

  /**
   * Reading a rendered answer back: the non-empty keywords, then the category.
   */
  lemma TokensOfRender(ks: seq<string>, cat: string)
    requires |ks| >= 1
    requires forall k :: 0 <= k < |ks| ==> Renderable(ks[k])
    requires Renderable(cat) && cat != ""
    ensures Tokens(Render(ks, cat)) == NonEmpty(ks) + [cat]
  {
    RenderJoin(ks, cat);
    RenderableSnoc(ks, cat);
    TokensOfJoin(ks + [cat]);
    NonEmptySnoc(ks, cat);
  }

  lemma RenderableSnoc(ks: seq<string>, cat: string)
    requires forall k :: 0 <= k < |ks| ==> Renderable(ks[k])
    requires Renderable(cat)
    ensures forall k :: 0 <= k < |ks + [cat]| ==> Renderable((ks + [cat])[k])
  {
    var xs := ks + [cat];
    forall k | 0 <= k < |xs| ensures Renderable(xs[k]) {
      if k < |ks| { assert xs[k] == ks[k]; }
    }
  }

  lemma NonEmptySnoc(ks: seq<string>, cat: string)
    requires cat != ""
    ensures NonEmpty(ks + [cat]) == NonEmpty(ks) + [cat]
  {
    assert (ks + [cat])[..|ks|] == ks;
  }

  /** Reading a `', '`-joined list back gives its non-empty entries. */
  lemma TokensOfJoin(xs: seq<string>)
    requires |xs| >= 1
    requires forall k :: 0 <= k < |xs| ==> Renderable(xs[k])
    ensures Tokens(Join(xs, ", ")) == NonEmpty(xs)
  {
    SplitRendered(xs);
    NonEmptyStrippedOf(Split(Join(xs, ", "), ','), xs);
  }

  /** The comma-separated pieces of a `', '`-joined list strip back to its entries. */
  lemma SplitRendered(xs: seq<string>)
    requires |xs| >= 1
    requires forall k :: 0 <= k < |xs| ==> Renderable(xs[k])
    ensures var ps := Split(Join(xs, ", "), ',');
            |ps| == |xs| && forall k :: 0 <= k < |ps| ==> Strip(ps[k]) == xs[k]
  {
    assert [','] + " " == ", ";
    SplitJoin(xs, ',', " ");
    var ps := Split(Join(xs, ", "), ',');
    forall k | 0 <= k < |ps| ensures Strip(ps[k]) == xs[k] {
      if k == 0 { StripTrimmed(xs[0]); } else { StripSpacePrefix(xs[k]); }
    }
  }

  /* --------------------------------------------------------- validation */

  /** A token the validator accepts on its own: at most 31 characters, no `:` and no `.`. */
  predicate WellFormed(t: string) { |t| <= 31 && ':' !in t && '.' !in t }

  /** `is_valid_result`. */
  predicate IsValidResult(r: string) {
    r != "" && r !in Sentinels
    && var ts := Tokens(r);
       |ts| == 4 && ts[3] in ValidCategories && forall k :: 0 <= k < 4 ==> WellFormed(ts[k])
  }

  /**
   * A rendered answer of three keywords is valid exactly when its category is
   * one of the six and every part is well formed.
   */
  lemma ValidRenderIff(ks: seq<string>, cat: string)
    requires |ks| == 3
    requires forall k :: 0 <= k < 3 ==> Renderable(ks[k]) && ks[k] != ""
    requires Renderable(cat) && cat != ""
    ensures IsValidResult(Render(ks, cat))
            <==> cat in ValidCategories && WellFormed(cat) && forall k :: 0 <= k < 3 ==> WellFormed(ks[k])
  {
    RenderNotSentinel(ks, cat);
    TokensOfRender(ks, cat);
    NonEmptyAll(ks);
    WellFormedParts(ks, cat);
  }

  /** A rendered answer holds a comma, which no sentinel does. */
  lemma RenderNotSentinel(ks: seq<string>, cat: string)
    requires |ks| >= 1
    ensures Render(ks, cat) != "" && Render(ks, cat) !in Sentinels
  {
    var r := Render(ks, cat);
    var j := Join(ks, ", ");
    assert r[|j|] == ',';
    assert forall x :: x in Sentinels ==> ',' !in x;
  }

  lemma WellFormedParts(ks: seq<string>, cat: string)
    requires |ks| == 3
    ensures (forall k :: 0 <= k < 4 ==> WellFormed((ks + [cat])[k]))
            <==> WellFormed(cat) && forall k :: 0 <= k < 3 ==> WellFormed(ks[k])
  {
    var ts := ks + [cat];
    assert ts[3] == cat;
    assert forall k :: 0 <= k < 3 ==> ts[k] == ks[k];
  }

  /* ----------------------------------------------------------- cleaning */

  /** The syllables the pattern `가-힣` names. */
  predicate IsHangul(c: char) { '\U{AC00}' <= c <= '\U{D7A3}' }

  /** `\w`: ASCII letters and digits, `_`, Hangul syllables and jamo. */
  predicate IsWordChar(c: char) {
    ('a' <= c <= 'z') || ('A' <= c <= 'Z') || ('0' <= c <= '9') || c == '_' || IsHangul(c)
    || ('\U{1100}' <= c <= '\U{11FF}') || ('\U{3131}' <= c <= '\U{318E}')
  }

  /** What `[^\w\s가-힣]` does not remove. */
  predicate Kept(c: char) { IsWordChar(c) || IsSpace(c) || IsHangul(c) }

  predicate AllKept(s: string) { forall i :: 0 <= i < |s| ==> Kept(s[i]) }

  /** Every whitespace character is a blank and no two of them are adjacent. */
  predicate Collapsed(s: string) {
    s == [] || ((IsSpace(s[0]) ==> s[0] == ' ' && (|s| == 1 || !IsSpace(s[1]))) && Collapsed(s[1..]))
  }

  /** `re.sub(r'[^\w\s가-힣]', '', s)`. */
  function RemovePunctuation(s: string): (r: string)
    ensures AllKept(r) && |r| <= |s|
    ensures AllKept(s) ==> r == s
  {
    if s == [] then []
    else (if Kept(s[0]) then [s[0]] else []) + RemovePunctuation(s[1..])
  }

  /** `re.sub(r'\s+', ' ', s)`. */
  function CollapseSpaces(s: string): string
    decreases |s|
  {
    if s == [] then []
    else if IsSpace(s[0]) then [' '] + CollapseSpaces(TrimLeft(s[1..]))
    else [s[0]] + CollapseSpaces(s[1..])
  }

  /** Collapsing keeps the string empty or not, turns a leading run into one blank, and keeps a non-blank end. */
  lemma {:induction false} CollapseSpacesEnds(s: string)
    ensures CollapseSpaces(s) == [] <==> s == []
    ensures s != [] ==> CollapseSpaces(s)[0] == if IsSpace(s[0]) then ' ' else s[0]
    ensures s != [] && !IsSpace(s[|s| - 1]) ==> !IsSpace(CollapseSpaces(s)[|CollapseSpaces(s)| - 1])
    decreases |s|
  {
    if s != [] {
      var r := CollapseSpaces(s);
      if IsSpace(s[0]) {
        var t := TrimLeft(s[1..]);
        var x := CollapseSpaces(t);
        assert r == [' '] + x;
        CollapseSpacesEnds(t);
        if !IsSpace(s[|s| - 1]) {
          assert t != [] && t[|t| - 1] == s[|s| - 1];
          assert r[|r| - 1] == x[|x| - 1];
        }
      } else {
        var x := CollapseSpaces(s[1..]);
        assert r == [s[0]] + x;
        CollapseSpacesEnds(s[1..]);
        if |s| > 1 {
          assert s[1..][|s| - 2] == s[|s| - 1];
          assert x != [] && r[|r| - 1] == x[|x| - 1];
        }
      }
    }
  }

  /** The result of collapsing has no whitespace but single blanks. */
  lemma {:induction false} CollapseSpacesCollapsed(s: string)
    ensures Collapsed(CollapseSpaces(s))
    decreases |s|
  {
    if s != [] {
      var r := CollapseSpaces(s);
      if IsSpace(s[0]) {
        var t := TrimLeft(s[1..]);
        CollapseSpacesCollapsed(t);
        CollapseSpacesEnds(t);
        assert r[1..] == CollapseSpaces(t);
      } else {
        CollapseSpacesCollapsed(s[1..]);
        assert r[1..] == CollapseSpaces(s[1..]);
      }
    }
  }

  /** Collapsing adds no character outside the kept classes. */
  lemma {:induction false} CollapseSpacesKept(s: string)
    requires AllKept(s)
    ensures AllKept(CollapseSpaces(s))
    decreases |s|
  {
    if s != [] {
      var r := CollapseSpaces(s);
      if IsSpace(s[0]) {
        var t := TrimLeft(s[1..]);
        forall i | 0 <= i < |t| ensures Kept(t[i]) { assert t[i] == s[1..][|s[1..]| - |t| + i]; }
        CollapseSpacesKept(t);
        assert r == [' '] + CollapseSpaces(t);
      } else {
        assert AllKept(s[1..]) by { forall i | 0 <= i < |s| - 1 ensures Kept(s[1..][i]) { assert s[1..][i] == s[i + 1]; } }
        CollapseSpacesKept(s[1..]);
        assert r == [s[0]] + CollapseSpaces(s[1..]);
      }
      forall i | 0 <= i < |r| ensures Kept(r[i]) {
        if i > 0 { assert r[i] == r[1..][i - 1]; }
      }
    }
  }

  lemma {:induction false} CollapseFixed(s: string)
    requires Collapsed(s)
    ensures CollapseSpaces(s) == s
    decreases |s|
  {
    if s != [] {
      CollapseFixed(s[1..]);
      if IsSpace(s[0]) && |s| > 1 {
        assert TrimLeft(s[1..]) == s[1..];
      }
    }
  }

  lemma AllKeptStrip(s: string)
    requires AllKept(s)
    ensures AllKept(Strip(s))
  {
    var l := TrimLeft(s);
    assert AllKept(l) by { forall i | 0 <= i < |l| ensures Kept(l[i]) { assert l[i] == s[|s| - |l| + i]; } }
    var r := TrimRight(l);
    assert AllKept(r) by { forall i | 0 <= i < |r| ensures Kept(r[i]) { assert r[i] == l[i]; } }
  }

  /** `clean_keyword`: remove punctuation, strip, collapse whitespace runs to one blank. */
  function CleanKeyword(s: string): (r: string)
    ensures AllKept(r) && Trimmed(r) && Collapsed(r)
  {
    var p := RemovePunctuation(s);
    AllKeptStrip(p);
    var q := Strip(p);
    CollapseSpacesEnds(q);
    CollapseSpacesCollapsed(q);
    CollapseSpacesKept(q);
    CollapseSpaces(q)
  }

  /** A cleaned keyword has no comma, colon, full stop or slash. */
  lemma KeptHasNoPunctuation(s: string)
    requires AllKept(s)
    ensures ',' !in s && ':' !in s && '.' !in s && '/' !in s
  {
    forall i | 0 <= i < |s| ensures s[i] != ',' && s[i] != ':' && s[i] != '.' && s[i] != '/' {
      assert Kept(s[i]);
    }
  }

  /** A string that is already clean is its own cleaning. */
  lemma CleanKeywordFixed(s: string)
    requires AllKept(s) && Trimmed(s) && Collapsed(s)
    ensures CleanKeyword(s) == s
  {
    StripTrimmed(s);
    CollapseFixed(s);
  }

  lemma CleanKeywordIdempotent(s: string)
    ensures CleanKeyword(CleanKeyword(s)) == CleanKeyword(s)
  {
    CleanKeywordFixed(CleanKeyword(s));
  }

  /** A cleaned keyword renders as one token. */
  lemma CleanRenderable(s: string)
    ensures Renderable(CleanKeyword(s))
  {
    KeptHasNoPunctuation(CleanKeyword(s));
  }

  /** Cleaning removes the slash of the category `웹/앱`, and the result is not a category. */
  lemma CleanWebApp()
    ensures CleanKeyword("웹/앱") == "웹앱"
    ensures "웹앱" !in ValidCategories
  {
    WebAppParts();
    CleanTo("웹/앱", "웹앱");
    WebAppNotCategory();
  }

  lemma WebAppNotCategory()
    ensures "웹앱" !in ValidCategories
  {
    assert |"웹앱"| == 2;
  }

  /** A string whose punctuation-free form is already trimmed and collapsed cleans to that form. */
  lemma CleanTo(s: string, t: string)
    requires RemovePunctuation(s) == t && Trimmed(t) && Collapsed(t)
    ensures CleanKeyword(s) == t
  {
    StripTrimmed(t);
    CollapseFixed(t);
  }

  /** `웹/앱` loses its slash to the punctuation filter; what is left is already clean. */
  lemma WebAppParts()
    ensures RemovePunctuation("웹/앱") == "웹앱"
    ensures Trimmed("웹앱") && Collapsed("웹앱")
  {
    var w, a: char := '\U{C6F9}', '\U{C571}';
    assert "웹/앱" == [w, '/', a] && "웹앱" == [w, a];
    assert Kept(w) && !Kept('/') && Kept(a);
    assert RemovePunctuation([a]) == [a];
    assert RemovePunctuation(['/', a]) == [a];
    assert RemovePunctuation([w, '/', a]) == [w, a];
    assert Collapsed([w, a]);
  }

  /** The categories other than `웹/앱` are left as they are by cleaning. */
  lemma CleanCategories(c: string)
    requires c in ValidCategories && c != "웹/앱"
    ensures CleanKeyword(c) == c
  {
    VocabularyWordOnly(c);
    WordOnlyClean(c);
  }

  function CleanAll(ks: seq<string>): (r: seq<string>)
    ensures |r| == |ks|
    ensures forall k :: 0 <= k < |r| ==> r[k] == CleanKeyword(ks[k])
  {
    if ks == [] then [] else [CleanKeyword(ks[0])] + CleanAll(ks[1..])
  }

  /** `clean_keywords_string`: clean each comma-separated part, drop the empty ones, rejoin. */
  function CleanKeywordsString(s: string): string {
    if s == "" then s
    else Join(NonEmpty(CleanAll(StripAll(Split(s, ',')))), ", ")
  }

  function StripAll(ps: seq<string>): (r: seq<string>)
    ensures |r| == |ps|
    ensures forall k :: 0 <= k < |r| ==> r[k] == Strip(ps[k])
  {
    if ps == [] then [] else [Strip(ps[0])] + StripAll(ps[1..])
  }

  /** What a cleaned keyword is: free of punctuation, trimmed, with single blanks. */
  predicate CleanPart(x: string) { Renderable(x) && AllKept(x) && Collapsed(x) }

  /** Dropping the empty strings keeps the entries clean. */
  lemma {:induction false} NonEmptyKeeps(xs: seq<string>)
    requires forall k :: 0 <= k < |xs| ==> CleanPart(xs[k])
    ensures forall k :: 0 <= k < |NonEmpty(xs)| ==> NonEmpty(xs)[k] != "" && CleanPart(NonEmpty(xs)[k])
  {
    if xs != [] {
      var init, last := xs[..|xs| - 1], xs[|xs| - 1];
      assert forall k :: 0 <= k < |init| ==> init[k] == xs[k];
      NonEmptyKeeps(init);
      var r, ri := NonEmpty(xs), NonEmpty(init);
      assert CleanPart(last);
      assert r == ri + (if last == "" then [] else [last]);
      forall k | 0 <= k < |r| ensures r[k] != "" && CleanPart(r[k]) {
        if k < |ri| { assert r[k] == ri[k]; } else { assert r[k] == last; }
      }
    }
  }

  /** Joining clean parts without the empty ones, and reading the result back, gives those parts. */
  lemma TokensOfCleanJoin(cs: seq<string>)
    requires forall k :: 0 <= k < |cs| ==> CleanPart(cs[k])
    requires NonEmpty(cs) != []
    ensures Tokens(Join(NonEmpty(cs), ", ")) == NonEmpty(cs)
    ensures forall k :: 0 <= k < |NonEmpty(cs)| ==> CleanPart(NonEmpty(cs)[k])
  {
    var parts := NonEmpty(cs);
    NonEmptyKeeps(cs);
    assert forall k :: 0 <= k < |parts| ==> parts[k] != "" && Renderable(parts[k]);
    TokensOfJoin(parts);
    NonEmptyAll(parts);
  }

  /** Reading the cleaned string back gives its cleaned, non-empty parts. */
  lemma CleanKeywordsStringTokens(s: string)
    requires s != ""
    requires NonEmpty(CleanAll(StripAll(Split(s, ',')))) != []
    ensures var parts := NonEmpty(CleanAll(StripAll(Split(s, ','))));
            Tokens(CleanKeywordsString(s)) == parts && forall k :: 0 <= k < |parts| ==> CleanPart(parts[k])
  {
    var ps := StripAll(Split(s, ','));
    var cs := CleanAll(ps);
    forall k | 0 <= k < |cs| ensures CleanPart(cs[k]) {
      CleanRenderable(ps[k]);
    }
    TokensOfCleanJoin(cs);
  }

  /* --------------------------------------------------- title categories */

  /** A category and the words that select it. */
  datatype Rule = Rule(category: string, words: seq<string>)

  /** The category of the first rule one of whose words occurs in `s`, else `default`. */
  function FirstMatch(s: string, rules: seq<Rule>, default: string): (c: string)
    ensures c == default || exists k :: 0 <= k < |rules| && c == rules[k].category
  {
    if rules == [] then default
    else if ContainsAny(s, rules[0].words) then rules[0].category
    else
      var c := FirstMatch(s, rules[1..], default);
      assert forall k :: 1 <= k < |rules| ==> rules[k] == rules[1..][k - 1];
      c
  }

  /** First match wins: the rule chosen matches and no earlier rule does. */
  lemma {:induction false} FirstMatchIsFirst(s: string, rules: seq<Rule>, default: string, k: nat)
    requires k < |rules|
    requires ContainsAny(s, rules[k].words)
    requires forall j :: 0 <= j < k ==> !ContainsAny(s, rules[j].words)
    ensures FirstMatch(s, rules, default) == rules[k].category
  {
    if k > 0 {
      assert forall j :: 0 <= j < k - 1 ==> rules[1..][j] == rules[j + 1];
      FirstMatchIsFirst(s, rules[1..], default, k - 1);
    }
  }

  lemma {:induction false} FirstMatchNone(s: string, rules: seq<Rule>, default: string)
    requires forall j :: 0 <= j < |rules| ==> !ContainsAny(s, rules[j].words)
    ensures FirstMatch(s, rules, default) == default
  {
    if rules != [] {
      assert forall j :: 0 <= j < |rules| - 1 ==> rules[1..][j] == rules[j + 1];
      FirstMatchNone(s, rules[1..], default);
    }
  }

  const TitleRules: seq<Rule> := [
    Rule("웹/앱", ["웹", "앱", "앱개발", "웹개발", "프로그래밍", "개발"]),
    Rule("데이터분석", ["데이터", "분석", "데이터분석", "과학", "통계"]),
    Rule("AI", ["ai", "인공지능", "머신러닝", "딥러닝"]),
    Rule("기획", ["기획", "계획", "설계", "전략"]),
    Rule("IOT", ["iot", "사물인터넷", "통신", "센서"])
  ]

  /**
   * `get_filtering_tag_from_title`: the `if`/`elif` chain over the lower-cased
   * title, written as its table; the first rule that matches wins.
   */
  function FilteringTagFromTitle(title: string): (tag: string)
    ensures tag in ValidCategories
  {
    var tag := FirstMatch(LowerAscii(title), TitleRules, Idea);
    assert forall k :: 0 <= k < |TitleRules| ==> TitleRules[k].category in ValidCategories;
    tag
  }

  lemma {:induction false} LowerAsciiIdempotent(s: string)
    ensures LowerAscii(LowerAscii(s)) == LowerAscii(s)
  {
    var l := LowerAscii(s);
    var ll := LowerAscii(l);
    forall i | 0 <= i < |s| ensures ll[i] == l[i] {
      assert ll[i] == if 'A' <= l[i] <= 'Z' then (l[i] as int + 32) as char else l[i];
    }
  }

  /** The title's classification ignores the case of ASCII letters. */
  lemma FilteringTagIgnoresCase(title: string)
    ensures FilteringTagFromTitle(LowerAscii(title)) == FilteringTagFromTitle(title)
  {
    LowerAsciiIdempotent(title);
  }

  /* ------------------------------------------------------------ padding */

  const PadWords: seq<string> := ["공모전", "대회", "참가"]

  /** The keyword the padding loop appends next. */
  function PadWord(ks: seq<string>): (w: string)
    ensures w in PadWords
  {
    if "공모전" !in ks then "공모전" else if "대회" !in ks then "대회" else "참가"
  }

  /** `while len(ks) < 3: ks.append(PadWord(ks))`. */
  function Padded(ks: seq<string>): seq<string>
    decreases 3 - |ks|
  {
    if |ks| >= 3 then ks else Padded(ks + [PadWord(ks)])
  }

  /** The word appended to a short list is never already in it. */
  lemma PadWordFresh(ks: seq<string>)
    requires |ks| < 3
    ensures PadWord(ks) !in ks
  {
    if |ks| == 2 && "공모전" in ks && "대회" in ks {
      assert ks == [ks[0], ks[1]];
      assert (ks[0] == "공모전" && ks[1] == "대회") || (ks[0] == "대회" && ks[1] == "공모전");
    }
  }

  /**
   * Padding keeps the list as a prefix, brings it to at least three entries
   * with words from `공모전, 대회, 참가`, and adds no duplicate.
   */
  lemma {:induction false} PaddedShape(ks: seq<string>)
    ensures |Padded(ks)| == if |ks| >= 3 then |ks| else 3
    ensures Padded(ks)[..|ks|] == ks
    ensures forall i :: |ks| <= i < |Padded(ks)| ==> Padded(ks)[i] in PadWords
    ensures NoDuplicates(ks) ==> NoDuplicates(Padded(ks))
    decreases 3 - |ks|
  {
    if |ks| < 3 {
      var w := PadWord(ks);
      var ks' := ks + [w];
      PaddedShape(ks');
      assert ks'[..|ks|] == ks;
      assert Padded(ks)[..|ks'|] == ks';
      assert Padded(ks)[..|ks|] == ks'[..|ks|];
      assert Padded(ks)[|ks|] == w;
      if NoDuplicates(ks) {
        PadWordFresh(ks);
        assert NoDuplicates(ks') by {
          forall i, j | 0 <= i < j < |ks'| ensures ks'[i] != ks'[j] {
            if j == |ks| { assert ks'[i] == ks[i]; } else { assert ks'[i] == ks[i] && ks'[j] == ks[j]; }
          }
        }
      }
    }
  }

  /** The `while len(keywords) < 3` loop of the analyser. */
  method PadToThree(ks: seq<string>) returns (r: seq<string>)
    ensures r == Padded(ks)
  {
    r := ks;
    while |r| < 3
      invariant Padded(r) == Padded(ks)
      decreases 3 - |r|
    {
      if "공모전" !in r {
        r := r + ["공모전"];
      } else if "대회" !in r {
        r := r + ["대회"];
      } else {
        r := r + ["참가"];
      }
    }
  }

  /* -------------------------------------------------- fallback keywords */

  const FallbackRules: seq<Rule> := [
    Rule("AI", ["AI", "인공지능"]),
    Rule("데이터분석", ["데이터", "분석", "과학"]),
    Rule("웹/앱", ["웹", "앱", "프로그래밍", "개발"]),
    Rule("기획", ["기획", "계획", "설계"]),
    Rule("IOT", ["IOT", "사물인터넷", "통신"])
  ]

  /** The category of `generate_fallback_keywords`: the same kind of chain, on the title as written. */
  function FallbackCategory(title: string): (c: string)
    ensures c in ValidCategories
  {
    var c := FirstMatch(title, FallbackRules, Idea);
    assert forall k :: 0 <= k < |FallbackRules| ==> FallbackRules[k].category in ValidCategories;
    c
  }

  const FallbackWords: seq<string> := ["해커톤", "공모전", "대회", "대학생", "AI"]

  /** The keywords the title suggests, in the order the analyser tries them. */
  function FallbackCandidates(title: string): (ks: seq<string>)
    ensures forall i :: 0 <= i < |ks| ==> ks[i] in FallbackWords
  {
    (if Contains(title, "해커톤") then ["해커톤"] else [])
    + (if Contains(title, "공모전") then ["공모전"] else [])
    + (if Contains(title, "대회") then ["대회"] else [])
    + (if ContainsAny(title, ["대학생", "청년", "학생"]) then ["대학생"] else [])
    + (if ContainsAny(title, ["AI", "인공지능", "데이터", "프로그래밍", "기획", "디자인", "논문"]) then ["AI"] else [])
  }

  /** The three keywords of the fallback before cleaning. */
  function FallbackKeywordList(title: string): seq<string> {
    Padded(Take(Dedup(FallbackCandidates(title)), 3))
  }

  /** `generate_fallback_keywords`. */
  function FallbackKeywords(title: string): string {
    if title == "" then "공모전, 대회, 참가, 아이디어"
    else Render(CleanAll(FallbackKeywordList(title)), CleanKeyword(FallbackCategory(title)))
  }

  /** `generate_fallback_keywords`, with its padding loop. */
  method GenerateFallbackKeywords(title: string) returns (r: string)
    ensures r == FallbackKeywords(title)
  {
    if title == "" {
      return "공모전, 대회, 참가, 아이디어";
    }
    var keywords := FallbackCandidates(title);
    keywords := Take(Dedup(keywords), 3);
    var filtering := FallbackCategory(title);
    keywords := PadToThree(keywords);
    r := Render(CleanAll(keywords), CleanKeyword(filtering));
  }

  /** A non-empty string of word characters only. */
  predicate WordOnly(w: string) { w != [] && forall i :: 0 <= i < |w| ==> IsWordChar(w[i]) }

  lemma {:induction false} WordOnlyCollapsed(w: string)
    requires forall i :: 0 <= i < |w| ==> IsWordChar(w[i])
    ensures Collapsed(w)
    decreases |w|
  {
    if w != [] {
      assert !IsSpace(w[0]) by { assert IsWordChar(w[0]); }
      assert forall i :: 0 <= i < |w[1..]| ==> IsWordChar(w[1..][i]) by {
        forall i | 0 <= i < |w[1..]| ensures IsWordChar(w[1..][i]) { assert w[1..][i] == w[i + 1]; }
      }
      WordOnlyCollapsed(w[1..]);
    }
  }

  /** A word of word characters is its own cleaning and renders as one token. */
  lemma WordOnlyClean(w: string)
    requires WordOnly(w)
    ensures CleanKeyword(w) == w && Renderable(w) && ':' !in w && '.' !in w
  {
    assert AllKept(w);
    assert !IsSpace(w[0]) && !IsSpace(w[|w| - 1]);
    WordOnlyCollapsed(w);
    CleanKeywordFixed(w);
    KeptHasNoPunctuation(w);
  }

  /** Every word the fallback can emit, and every category but `웹/앱`, is made of word characters. */
  lemma VocabularyWordOnly(w: string)
    requires w in FallbackWords || w in PadWords || (w in ValidCategories && w != "웹/앱")
    ensures WordOnly(w) && |w| <= 31
  {
  }

  /** Padding the de-duplicated first three candidates gives three distinct words of the vocabulary. */
  lemma {:induction false} FallbackListShape(cands: seq<string>)
    requires forall i :: 0 <= i < |cands| ==> cands[i] in FallbackWords
    ensures var ks := Padded(Take(Dedup(cands), 3));
            |ks| == 3 && NoDuplicates(ks) && forall i :: 0 <= i < 3 ==> ks[i] in FallbackWords || ks[i] in PadWords
  {
    var d := Dedup(cands);
    var t := Take(d, 3);
    assert NoDuplicates(t) by {
      forall i, j | 0 <= i < j < |t| ensures t[i] != t[j] { assert t[i] == d[i] && t[j] == d[j]; }
    }
    assert forall i :: 0 <= i < |t| ==> t[i] in FallbackWords by {
      forall i | 0 <= i < |t| ensures t[i] in FallbackWords { assert t[i] == d[i]; }
    }
    PaddedShape(t);
    var ks := Padded(t);
    forall i | 0 <= i < 3 ensures ks[i] in FallbackWords || ks[i] in PadWords {
      if i < |t| { assert ks[i] == ks[..|t|][i] == t[i]; }
    }
  }

  /**
   * Three words of the vocabulary and a category render as an answer that
   * reads back as those words and the cleaned category, and that is valid
   * exactly when the category is not `웹/앱`.
   */
  lemma RenderVocabulary(ks: seq<string>, c: string)
    requires |ks| == 3 && forall i :: 0 <= i < 3 ==> ks[i] in FallbackWords || ks[i] in PadWords
    requires c in ValidCategories
    ensures Tokens(Render(CleanAll(ks), CleanKeyword(c))) == ks + [CleanKeyword(c)]
    ensures IsValidResult(Render(CleanAll(ks), CleanKeyword(c))) <==> c != "웹/앱"
  {
    VocabularyClean(ks);
    var cat := CleanKeyword(c);
    CategoryClean(c);
    ValidRenderIff(ks, cat);
    TokensOfRender(ks, cat);
    NonEmptyAll(ks);
  }

  lemma VocabularyClean(ks: seq<string>)
    requires |ks| == 3 && forall i :: 0 <= i < 3 ==> ks[i] in FallbackWords || ks[i] in PadWords
    ensures CleanAll(ks) == ks
    ensures forall i :: 0 <= i < 3 ==> Renderable(ks[i]) && WellFormed(ks[i]) && ks[i] != ""
  {
    forall i | 0 <= i < 3 ensures CleanAll(ks)[i] == ks[i] && Renderable(ks[i]) && WellFormed(ks[i]) && ks[i] != "" {
      VocabularyWordOnly(ks[i]);
      WordOnlyClean(ks[i]);
    }
  }

  /** A cleaned category is a non-empty token; it is still a category unless it was `웹/앱`. */
  lemma CategoryClean(c: string)
    requires c in ValidCategories
    ensures var cat := CleanKeyword(c);
            Renderable(cat) && cat != "" && WellFormed(cat) && (cat in ValidCategories <==> c != "웹/앱")
  {
    if c == "웹/앱" {
      CleanWebApp();
      WebAppToken();
    } else {
      VocabularyWordOnly(c);
      WordOnlyClean(c);
    }
  }

  /** `웹앱` is a well-formed token of its own. */
  lemma WebAppToken()
    ensures Renderable("웹앱") && WellFormed("웹앱")
  {
    assert WordOnly("웹앱");
    WordOnlyClean("웹앱");
  }

  /**
   * The fallback names exactly three distinct keywords from its fixed
   * vocabulary, then its cleaned category.
   */
  lemma FallbackShape(title: string)
    requires title != ""
    ensures var ks := FallbackKeywordList(title);
            |ks| == 3 && NoDuplicates(ks)
            && (forall i :: 0 <= i < 3 ==> ks[i] in FallbackWords || ks[i] in PadWords)
            && Tokens(FallbackKeywords(title)) == ks + [CleanKeyword(FallbackCategory(title))]
  {
    FallbackListShape(FallbackCandidates(title));
    RenderVocabulary(FallbackKeywordList(title), FallbackCategory(title));
  }

  /** The answer used for an empty title passes the validator. */
  lemma EmptyTitleFallbackValid()
    ensures IsValidResult("공모전, 대회, 참가, 아이디어")
  {
    var ks := ["공모전", "대회", "참가"];
    assert Join(ks[2..], ", ") == "참가";
    assert Join(ks[1..], ", ") == "대회, 참가";
    assert Join(ks, ", ") == "공모전, 대회, 참가";
    assert Render(ks, Idea) == "공모전, 대회, 참가, 아이디어";
    VocabularyClean(ks);
    VocabularyWordOnly(Idea);
    WordOnlyClean(Idea);
    ValidRenderIff(ks, Idea);
  }

  /** An empty title's fallback is valid; otherwise it is valid unless its category is `웹/앱`. */
  lemma FallbackValidIff(title: string)
    ensures IsValidResult(FallbackKeywords(title)) <==> title == "" || FallbackCategory(title) != "웹/앱"
  {
    if title == "" {
      EmptyTitleFallbackValid();
    } else {
      FallbackListShape(FallbackCandidates(title));
      RenderVocabulary(FallbackKeywordList(title), FallbackCategory(title));
    }
  }

  /* ---------------------------------------------------------- the repair */

  /** The last token that is a category, and the other tokens in order. */
  function Partition(ts: seq<string>): (Option<string>, seq<string>) {
    if ts == [] then (None, [])
    else
      var p := Partition(ts[..|ts| - 1]);
      var t := ts[|ts| - 1];
      if t in ValidCategories then (Some(t), p.1) else (p.0, p.1 + [t])
  }

  /**
   * The category found is the last token that is one; the regular keywords
   * are exactly the tokens that are not.
   */
  lemma {:induction false} PartitionSpec(ts: seq<string>)
    ensures Partition(ts).0.None? <==> forall i :: 0 <= i < |ts| ==> ts[i] !in ValidCategories
    ensures Partition(ts).0.Some? ==>
              exists i :: 0 <= i < |ts| && ts[i] == Partition(ts).0.value && ts[i] in ValidCategories
                          && forall j :: i < j < |ts| ==> ts[j] !in ValidCategories
    ensures forall x :: x in Partition(ts).1 <==> x in ts && x !in ValidCategories
  {
    if ts != [] {
      var init, t := ts[..|ts| - 1], ts[|ts| - 1];
      PartitionSpec(init);
      assert ts == init + [t];
      assert forall i :: 0 <= i < |init| ==> ts[i] == init[i];
      if t !in ValidCategories && Partition(init).0.Some? {
        var i :| 0 <= i < |init| && init[i] == Partition(init).0.value && init[i] in ValidCategories
                  && forall j :: i < j < |init| ==> init[j] !in ValidCategories;
        assert forall j :: i < j < |ts| ==> ts[j] !in ValidCategories;
      }
    }
  }

  /** A token that is not a category: a regular keyword. */
  predicate Regular(t: string) {
    t !in ValidCategories
  }

  /** The regular keywords are the non-category tokens, in order and with repeats kept. */
  lemma {:induction false} PartitionRegular(ts: seq<string>)
    ensures Partition(ts).1 == Filter(ts, Regular)
  {
    if ts != [] {
      PartitionRegular(ts[..|ts| - 1]);
    }
  }

  const TitleWords: seq<string> := ["해커톤", "AI", "데이터", "프로그래밍"]

  /** Append each word that occurs in the title and is not yet a keyword. */
  function AddTitleWords(ks: seq<string>, title: string, words: seq<string>): seq<string>
    decreases |words|
  {
    if words == [] then ks
    else AddTitleWords(if Contains(title, words[0]) && words[0] !in ks then ks + [words[0]] else ks,
                       title, words[1..])
  }

  /** The category of a repaired answer before cleaning. */
  function FixedCategory(keywords: string): string {
    var c := Partition(Tokens(keywords)).0;
    if c.Some? then c.value else Idea
  }

  /** The regular keywords of a repaired answer before cleaning. */
  function FixedRegular(keywords: string, title: string): seq<string> {
    var regular := Partition(Tokens(keywords)).1;
    var withTitle := if |regular| < 3 && title != "" then AddTitleWords(regular, title, TitleWords) else regular;
    Dedup(Padded(Take(withTitle, 3)))
  }

  /** `validate_and_fix_keywords`. */
  function FixKeywords(keywords: string, title: string): string {
    if keywords == "" || keywords == NoResponse then keywords
    else Render(CleanAll(FixedRegular(keywords, title)), CleanKeyword(FixedCategory(keywords)))
  }

  /** The loop of `validate_and_fix_keywords` that sets the category tokens apart; the last one wins. */
  method PartitionTokens(list: seq<string>) returns (filtering: Option<string>, regular: seq<string>)
    ensures (filtering, regular) == Partition(list)
  {
    filtering := None;
    regular := [];
    var i := 0;
    while i < |list|
      invariant 0 <= i <= |list|
      invariant (filtering, regular) == Partition(list[..i])
    {
      assert list[..i + 1][..i] == list[..i];
      if list[i] in ValidCategories {
        filtering := Some(list[i]);
      } else {
        regular := regular + [list[i]];
      }
      i := i + 1;
    }
    assert list[..i] == list;
  }

  /** `validate_and_fix_keywords`, with its partition and padding loops. */
  method ValidateAndFixKeywords(keywords: string, title: string) returns (r: string)
    ensures r == FixKeywords(keywords, title)
  {
    if keywords == "" || keywords == NoResponse {
      return keywords;
    }
    var filtering, regular := PartitionTokens(Tokens(keywords));
    var category := if filtering.Some? then filtering.value else Idea;
    assert category == FixedCategory(keywords);
    if |regular| < 3 && title != "" {
      regular := AddTitleWords(regular, title, TitleWords);
    }
    ghost var withTitle := regular;
    if |regular| > 3 {
      regular := regular[..3];
    }
    assert regular == Take(withTitle, 3);
    regular := PadToThree(regular);
    regular := Dedup(regular);
    assert regular == FixedRegular(keywords, title);
    r := Render(CleanAll(regular), CleanKeyword(category));
  }

  /** The empty answer and the no-response sentinel pass through the repair unchanged. */
  lemma FixKeywordsPassThrough(title: string)
    ensures FixKeywords("", title) == ""
    ensures FixKeywords(NoResponse, title) == NoResponse
  {
  }

  /**
   * A repaired answer reads back as at most three cleaned keywords (fewer when
   * the padded list had repeats or a keyword cleaned to nothing), then the
   * cleaned category, which is the last category token of the answer or
   * `아이디어`.
   */
  lemma FixKeywordsShape(keywords: string, title: string)
    requires keywords != "" && keywords != NoResponse
    ensures var regular := FixedRegular(keywords, title);
            1 <= |regular| <= 3 && NoDuplicates(regular)
            && Tokens(FixKeywords(keywords, title))
               == NonEmpty(CleanAll(regular)) + [CleanKeyword(FixedCategory(keywords))]
  {
    FixedRegularBounds(keywords, title);
    PartitionSpec(Tokens(keywords));
    RenderCleaned(FixedRegular(keywords, title), FixedCategory(keywords));
  }

  /** The repaired keyword list has one to three entries and no repeats. */
  lemma FixedRegularBounds(keywords: string, title: string)
    ensures var regular := FixedRegular(keywords, title);
            1 <= |regular| <= 3 && NoDuplicates(regular)
  {
    var p := Partition(Tokens(keywords)).1;
    var w := if |p| < 3 && title != "" then AddTitleWords(p, title, TitleWords) else p;
    var t := Take(w, 3);
    PaddedShape(t);
    var padded := Padded(t);
    var regular := Dedup(padded);
    assert regular == FixedRegular(keywords, title);
    assert padded[0] in regular;
  }

  /** Cleaned keywords and a cleaned category read back as the non-empty keywords, then the category. */
  lemma RenderCleaned(ks: seq<string>, c: string)
    requires |ks| >= 1 && c in ValidCategories
    ensures Tokens(Render(CleanAll(ks), CleanKeyword(c))) == NonEmpty(CleanAll(ks)) + [CleanKeyword(c)]
  {
    var cs := CleanAll(ks);
    forall k | 0 <= k < |cs| ensures Renderable(cs[k]) { CleanRenderable(ks[k]); }
    CategoryClean(c);
    TokensOfRender(cs, CleanKeyword(c));
  }

  /** A repair whose category is `웹/앱` never passes the validator. */
  lemma FixedWebAppRejected(keywords: string, title: string)
    requires keywords != "" && keywords != NoResponse
    requires FixedCategory(keywords) == "웹/앱"
    ensures !IsValidResult(FixKeywords(keywords, title))
  {
    FixKeywordsShape(keywords, title);
    CleanWebApp();
    var ts := Tokens(FixKeywords(keywords, title));
    assert ts[|ts| - 1] == "웹앱";
  }

  /** For any other category, the repaired answer ends with that category as written. */
  lemma FixedCategoryKept(keywords: string, title: string)
    requires keywords != "" && keywords != NoResponse
    requires FixedCategory(keywords) != "웹/앱"
    ensures var ts := Tokens(FixKeywords(keywords, title));
            |ts| >= 1 && ts[|ts| - 1] == FixedCategory(keywords) && ts[|ts| - 1] in ValidCategories
  {
    FixKeywordsShape(keywords, title);
    PartitionSpec(Tokens(keywords));
    CleanCategories(FixedCategory(keywords));
  }
}
