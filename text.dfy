/**
 * The parts of Python's `str` that the backend relies on, over `seq<char>`:
 * whitespace, `strip`, `split`, `join`, `in`, `startswith`, `lower`, `isdigit`,
 * `int(...)` and `str(int)`, and order-preserving de-duplication
 * (`list(dict.fromkeys(xs))`).
 */
module Text {
  import opened Wrappers

  /** Characters for which `str.isspace()` holds, which are also what `\s` matches. */
  predicate IsSpace(c: char) {
    c == ' ' || ('\t' <= c <= '\r') || ('\U{1c}' <= c <= '\U{1f}') || c == '\U{85}' || c == '\U{a0}'
    || c == '\U{1680}' || ('\U{2000}' <= c <= '\U{200a}') || c == '\U{2028}' || c == '\U{2029}'
    || c == '\U{202f}' || c == '\U{205f}' || c == '\U{3000}'
  }

  predicate IsAsciiDigit(c: char) { '0' <= c <= '9' }

  predicate AllAsciiDigits(s: string) { forall i :: 0 <= i < |s| ==> IsAsciiDigit(s[i]) }

  /** `s.isdigit()`, for ASCII digits. */
  predicate IsDigitString(s: string) { |s| > 0 && AllAsciiDigits(s) }

  function TrimLeft(s: string): (r: string)
    ensures |r| <= |s| && r == s[|s| - |r|..]
    ensures forall j :: 0 <= j < |s| - |r| ==> IsSpace(s[j])
    ensures r != [] ==> !IsSpace(r[0])
  {
    if |s| > 0 && IsSpace(s[0]) then TrimLeft(s[1..]) else s
  }

  function TrimRight(s: string): (r: string)
    ensures |r| <= |s| && r == s[..|r|]
    ensures forall j :: |r| <= j < |s| ==> IsSpace(s[j])
    ensures r != [] ==> !IsSpace(r[|r| - 1])
  {
    if |s| > 0 && IsSpace(s[|s| - 1]) then TrimRight(s[..|s| - 1]) else s
  }

  /** `s.strip()`. */
  function Strip(s: string): (r: string)
    ensures |r| <= |s|
    ensures r != [] ==> !IsSpace(r[0]) && !IsSpace(r[|r| - 1])
  {
    var l := TrimLeft(s);
    var r := TrimRight(l);
    assert r != [] ==> r[0] == l[0];
    r
  }

  /** A string that `strip()` leaves as it is. */
  predicate Trimmed(s: string) { s == [] || (!IsSpace(s[0]) && !IsSpace(s[|s| - 1])) }

  lemma StripTrimmed(s: string)
    requires Trimmed(s)
    ensures Strip(s) == s
  {
  }

  lemma StripSpacePrefix(s: string)
    requires Trimmed(s)
    ensures Strip([' '] + s) == s
  {
    assert ([' '] + s)[1..] == s;
  }

  lemma StripKeepsChars(s: string, c: char)
    ensures c in Strip(s) ==> c in s
  {
    var l := TrimLeft(s);
    assert forall x :: x in TrimRight(l) ==> x in l;
    assert forall x :: x in l ==> x in s;
  }

  /** The position of the first `c` in `s`, or `|s|`. */
  function IndexOf(s: string, c: char): (i: nat)
    ensures i <= |s|
    ensures i < |s| ==> s[i] == c
    ensures forall j :: 0 <= j < i ==> s[j] != c
  {
    if |s| == 0 then 0 else if s[0] == c then 0 else 1 + IndexOf(s[1..], c)
  }

  /** `sep.join(xs)`. */
  function Join(xs: seq<string>, sep: string): string
  {
    if |xs| == 0 then "" else if |xs| == 1 then xs[0] else xs[0] + sep + Join(xs[1..], sep)
  }

  /** `s.split(sep)` for a one-character separator: always at least one piece, joined back to `s`. */
  function Split(s: string, sep: char): (r: seq<string>)
    ensures |r| >= 1
    ensures forall k :: 0 <= k < |r| ==> sep !in r[k]
    ensures Join(r, [sep]) == s
    decreases |s|
  {
    var i := IndexOf(s, sep);
    if i == |s| then [s]
    else
      var rest := Split(s[i + 1..], sep);
      assert s == s[..i] + [sep] + s[i + 1..];
      [s[..i]] + rest
  }

  lemma SplitNoSeparator(s: string, sep: char)
    requires sep !in s
    ensures Split(s, sep) == [s]
  {
  }

  lemma SplitAfterPiece(a: string, sep: char, b: string)
    requires sep !in a
    ensures Split(a + [sep] + b, sep) == [a] + Split(b, sep)
  {
    var s := a + [sep] + b;
    var i := IndexOf(s, sep);
    assert forall j :: 0 <= j < |a| ==> s[j] == a[j];
    assert s[|a|] == sep;
    assert i == |a|;
    assert s[..i] == a && s[i + 1..] == b;
  }

  /**
   * Splitting a `join` whose glue starts with the separator gives back each
   * piece, those after the first with the rest of the glue in front.
   */
  lemma {:induction false} SplitJoin(xs: seq<string>, sep: char, glue: string)
    requires |xs| >= 1
    requires sep !in glue
    requires forall k :: 0 <= k < |xs| ==> sep !in xs[k]
    ensures |Split(Join(xs, [sep] + glue), sep)| == |xs|
    ensures Split(Join(xs, [sep] + glue), sep)[0] == xs[0]
    ensures forall k :: 1 <= k < |xs| ==> Split(Join(xs, [sep] + glue), sep)[k] == glue + xs[k]
    decreases |xs|
  {
    var d := [sep] + glue;
    if |xs| == 1 {
      SplitNoSeparator(xs[0], sep);
    } else {
      var ys := [glue + xs[1]] + xs[2..];
      ShiftedPieces(xs, sep, glue);
      SplitJoin(ys, sep, glue);
      JoinShift(xs, sep, glue);
      SplitAfterPiece(xs[0], sep, Join(ys, d));
      var r := Split(Join(xs, d), sep);
      assert r == [xs[0]] + Split(Join(ys, d), sep);
      forall k | 1 <= k < |xs| ensures r[k] == glue + xs[k] {
        if k >= 2 { assert ys[k - 1] == xs[k]; }
      }
    }
  }

  /** The glue after the first separator moves onto the second piece. */
  lemma JoinShift(xs: seq<string>, sep: char, glue: string)
    requires |xs| >= 2
    ensures Join(xs, [sep] + glue) == xs[0] + [sep] + Join([glue + xs[1]] + xs[2..], [sep] + glue)
  {
    var d := [sep] + glue;
    assert xs[1..][1..] == xs[2..];
    JoinCons(xs[1..], d, glue);
    AppendAssoc(xs[0] + [sep], glue, Join(xs[1..], d));
  }

  lemma ShiftedPieces(xs: seq<string>, sep: char, glue: string)
    requires |xs| >= 2
    requires sep !in glue
    requires forall k :: 0 <= k < |xs| ==> sep !in xs[k]
    ensures forall k :: 0 <= k < |xs| - 1 ==> sep !in ([glue + xs[1]] + xs[2..])[k]
  {
    var ys := [glue + xs[1]] + xs[2..];
    forall k | 0 <= k < |ys| ensures sep !in ys[k] {
      if k == 0 { assert ys[0] == glue + xs[1]; } else { assert ys[k] == xs[k + 1]; }
    }
  }

  lemma JoinCons(xs: seq<string>, d: string, glue: string)
    requires |xs| >= 1
    requires |d| >= |glue| && d[|d| - |glue|..] == glue
    ensures glue + Join(xs, d) == Join([glue + xs[0]] + xs[1..], d)
  {
    var ys := [glue + xs[0]] + xs[1..];
    assert ys[1..] == xs[1..];
    if |xs| > 1 {
      assert Join(ys, d) == glue + xs[0] + d + Join(xs[1..], d);
    }
  }

  function StartsWith(s: string, prefix: string): (b: bool)
    ensures b <==> |prefix| <= |s| && s[..|prefix|] == prefix
  {
    |prefix| <= |s| && s[..|prefix|] == prefix
  }

  function EndsWith(s: string, suffix: string): (b: bool)
    ensures b <==> |suffix| <= |s| && s[|s| - |suffix|..] == suffix
  {
    |suffix| <= |s| && s[|s| - |suffix|..] == suffix
  }

  /** `sub in s`. */
  function Contains(s: string, sub: string): (b: bool)
    ensures StartsWith(s, sub) ==> b
    ensures b ==> |sub| <= |s|
  {
    StartsWith(s, sub) || (|s| > 0 && Contains(s[1..], sub))
  }

  /** `sub` occurs in `s` starting at position `i`. */
  predicate OccursAt(s: string, sub: string, i: int) {
    0 <= i && i + |sub| <= |s| && s[i..i + |sub|] == sub
  }

  /** A match found by `sub in s` sits at some position of `s`. */
  lemma {:induction false} ContainsWitness(s: string, sub: string)
    requires Contains(s, sub)
    ensures exists i :: OccursAt(s, sub, i)
  {
    if StartsWith(s, sub) {
      assert s[0..0 + |sub|] == sub;
      assert OccursAt(s, sub, 0);
    } else {
      ContainsWitness(s[1..], sub);
      var j :| OccursAt(s[1..], sub, j);
      assert s[j + 1..j + 1 + |sub|] == s[1..][j..j + |sub|];
      assert OccursAt(s, sub, j + 1);
    }
  }

  /** `sub in s` finds an occurrence of `sub` at any position of `s`. */
  lemma {:induction false} ContainsAtPosition(s: string, sub: string, i: nat)
    requires OccursAt(s, sub, i)
    ensures Contains(s, sub)
  {
    if i > 0 {
      assert s[1..][i - 1..i - 1 + |sub|] == s[i..i + |sub|];
      ContainsAtPosition(s[1..], sub, i - 1);
    }
  }

  /** `any(w in s for w in words)`. */
  function ContainsAny(s: string, words: seq<string>): (b: bool)
    ensures b <==> exists k :: 0 <= k < |words| && Contains(s, words[k])
  {
    if words == [] then false
    else
      assert forall k :: 1 <= k < |words| ==> words[k] == words[1..][k - 1];
      Contains(s, words[0]) || ContainsAny(s, words[1..])
  }

  /** `s.lower()`, on ASCII letters. */
  function LowerAscii(s: string): (r: string)
    ensures |r| == |s|
    ensures forall i :: 0 <= i < |s| ==> r[i] == if 'A' <= s[i] <= 'Z' then (s[i] as int + 32) as char else s[i]
  {
    if s == [] then []
    else [if 'A' <= s[0] <= 'Z' then (s[0] as int + 32) as char else s[0]] + LowerAscii(s[1..])
  }

  predicate NoDuplicates<T(==)>(s: seq<T>) {
    forall i, j :: 0 <= i < j < |s| ==> s[i] != s[j]
  }

  /** `list(dict.fromkeys(s))`: the first occurrence of each element, in order. */
  function Dedup<T(==)>(s: seq<T>): (r: seq<T>)
    ensures forall i :: 0 <= i < |r| ==> r[i] in s
    ensures forall i :: 0 <= i < |s| ==> s[i] in r
    ensures NoDuplicates(r)
    ensures |r| <= |s|
  {
    if s == [] then []
    else
      var p := Dedup(s[..|s| - 1]);
      assert s == s[..|s| - 1] + [s[|s| - 1]];
      if s[|s| - 1] in p then p else p + [s[|s| - 1]]
  }

  /** `[f(x) for x in s]`. */
  function MapSeq<A, B>(f: A -> B, s: seq<A>): (r: seq<B>)
    ensures |r| == |s| && forall k :: 0 <= k < |s| ==> r[k] == f(s[k])
  {
    seq(|s|, k requires 0 <= k < |s| => f(s[k]))
  }

  /** `[x for x in s if keep(x)]`. */
  function Filter<T>(s: seq<T>, keep: T -> bool): (r: seq<T>)
    ensures |r| <= |s|
    ensures forall k :: 0 <= k < |r| ==> r[k] in s && keep(r[k])
    ensures forall k :: 0 <= k < |s| && keep(s[k]) ==> s[k] in r
  {
    if s == [] then [] else Filter(s[..|s| - 1], keep) + if keep(s[|s| - 1]) then [s[|s| - 1]] else []
  }

  /** `idx` lists, in increasing order, the positions of `s` that `f` is made of. */
  ghost predicate PicksFrom<T>(s: seq<T>, f: seq<T>, idx: seq<nat>) {
    |idx| == |f|
    && (forall k :: 0 <= k < |idx| ==> idx[k] < |s| && s[idx[k]] == f[k])
    && (forall k, l :: 0 <= k < l < |idx| ==> idx[k] < idx[l])
  }

  /** `idx` holds exactly the positions of `s` whose element passes. */
  predicate PassingAt<T>(s: seq<T>, keep: T -> bool, idx: seq<nat>) {
    forall j :: 0 <= j < |s| ==> (keep(s[j]) <==> j in idx)
  }

  lemma PicksFromSnoc<T>(init: seq<T>, fi: seq<T>, pre: seq<nat>, x: T, ext: seq<T>)
    requires PicksFrom(init, fi, pre)
    requires ext == [] || ext == [x]
    ensures PicksFrom(init + [x], fi + ext, pre + if ext == [] then [] else [|init|])
  {
    var s, f, idx := init + [x], fi + ext, pre + if ext == [] then [] else [|init|];
    forall k | 0 <= k < |idx|
      ensures idx[k] < |s| && s[idx[k]] == f[k]
    {
      if k < |pre| {
        assert s[pre[k]] == init[pre[k]];
      }
    }
  }

  lemma PassingAtSnoc<T>(init: seq<T>, keep: T -> bool, pre: seq<nat>, x: T)
    requires PassingAt(init, keep, pre)
    requires forall k :: 0 <= k < |pre| ==> pre[k] < |init|
    ensures PassingAt(init + [x], keep, pre + if keep(x) then [|init|] else [])
  {
    var s, idx := init + [x], pre + if keep(x) then [|init|] else [];
    forall j | 0 <= j < |s|
      ensures keep(s[j]) <==> j in idx
    {
      if j < |init| {
        assert s[j] == init[j];
        assert j in idx <==> j in pre;
      } else {
        assert j !in pre;
      }
    }
  }

  /**
   * The filtered list is `s` at exactly the positions whose element passes,
   * in increasing order: order and repetitions are kept.
   */
  lemma {:induction false} FilterPositions<T>(s: seq<T>, keep: T -> bool) returns (idx: seq<nat>)
    ensures PicksFrom(s, Filter(s, keep), idx)
    ensures PassingAt(s, keep, idx)
  {
    if s == [] {
      idx := [];
    } else {
      var init, x := s[..|s| - 1], s[|s| - 1];
      var pre := FilterPositions(init, keep);
      var ext := if keep(x) then [x] else [];
      assert s == init + [x];
      assert Filter(s, keep) == Filter(init, keep) + ext;
      PicksFromSnoc(init, Filter(init, keep), pre, x, ext);
      PassingAtSnoc(init, keep, pre, x);
      idx := pre + if keep(x) then [|init|] else [];
    }
  }

  /** Filtering consecutive runs filters each, in order. */
  lemma {:induction false} FilterAppend<T>(a: seq<T>, b: seq<T>, keep: T -> bool)
    ensures Filter(a + b, keep) == Filter(a, keep) + Filter(b, keep)
    decreases |b|
  {
    if b == [] {
      assert a + b == a;
    } else {
      var init := b[..|b| - 1];
      assert (a + b)[..|a + b| - 1] == a + init;
      FilterAppend(a, init, keep);
    }
  }

  /** Two tests that agree on every element filter alike. */
  lemma {:induction false} FilterAgree<T>(s: seq<T>, f: T -> bool, g: T -> bool)
    requires forall k :: 0 <= k < |s| ==> f(s[k]) == g(s[k])
    ensures Filter(s, f) == Filter(s, g)
  {
    if s != [] {
      var init := s[..|s| - 1];
      assert forall k :: 0 <= k < |init| ==> init[k] == s[k];
      FilterAgree(init, f, g);
    }
  }

  lemma MapSeqAppend<A, B>(f: A -> B, a: seq<A>, b: seq<A>)
    ensures MapSeq(f, a + b) == MapSeq(f, a) + MapSeq(f, b)
  {
    var x, y, z := MapSeq(f, a + b), MapSeq(f, a), MapSeq(f, b);
    forall k | 0 <= k < |a + b| ensures x[k] == (y + z)[k] {
      if k < |a| {
        assert (a + b)[k] == a[k];
      } else {
        assert (a + b)[k] == b[k - |a|];
      }
    }
  }

  /** A non-empty sequence is its front followed by its last element. */
  lemma FrontLast<T>(s: seq<T>)
    requires s != []
    ensures s == s[..|s| - 1] + [s[|s| - 1]]
  {
  }

  /** Concatenation regroups freely. */
  lemma AppendAssoc<T>(a: seq<T>, b: seq<T>, c: seq<T>)
    ensures a + b + c == a + (b + c)
  {
  }

  /** A sequence is the concatenation of its pieces between five cut points. */
  lemma SixPieces<T>(s: seq<T>, a: nat, b: nat, c: nat, d: nat, e: nat)
    requires a <= b <= c <= d <= e <= |s|
    ensures s == s[..a] + s[a..b] + s[b..c] + s[c..d] + s[d..e] + s[e..]
  {
    assert s[..a] + s[a..b] == s[..b];
    assert s[..b] + s[b..c] == s[..c];
    assert s[..c] + s[c..d] == s[..d];
    assert s[..d] + s[d..e] == s[..e];
  }

  /** The pieces of a six-part concatenation are its slices at the cumulative lengths. */
  lemma SlicesOfSix<T>(a: seq<T>, b: seq<T>, c: seq<T>, d: seq<T>, e: seq<T>, f: seq<T>)
    ensures var s, i := a + b + c + d + e + f, |a|;
            var j := i + |b|;
            var k := j + |c|;
            var l := k + |d|;
            var m := l + |e|;
            s[..i] == a && s[i..j] == b && s[j..k] == c && s[k..l] == d && s[l..m] == e && s[m..] == f
  {
    var ab := a + b;
    var abc := ab + c;
    var abcd := abc + d;
    var abcde := abcd + e;
    assert abcde[..|abcd|] == abcd;
    assert abcd[..|abc|] == abc;
    assert abc[..|ab|] == ab;
  }

  /** The position of the first occurrence of `x` in `s`. */
  function FirstIndex<T(==)>(s: seq<T>, x: T): (i: nat)
    requires x in s
    ensures i < |s| && s[i] == x
    ensures forall j :: 0 <= j < i ==> s[j] != x
  {
    if s[0] == x then 0 else 1 + FirstIndex(s[1..], x)
  }

  /** Appending keeps the first occurrence of an element already present. */
  lemma FirstIndexSnoc<T>(s: seq<T>, x: T, y: T)
    requires y in s
    ensures FirstIndex(s + [x], y) == FirstIndex(s, y)
  {
    var a, b := FirstIndex(s + [x], y), FirstIndex(s, y);
    assert (s + [x])[b] == y;
    assert a <= b;
    assert s[a] == (s + [x])[a];
  }

  /** Elements of `d`, all from `s`, ordered by their first occurrence in `s`. */
  predicate FirstOccurrenceOrder<T(==)>(s: seq<T>, d: seq<T>) {
    (forall i :: 0 <= i < |d| ==> d[i] in s)
    && forall i, j :: 0 <= i < j < |d| ==> FirstIndex(s, d[i]) < FirstIndex(s, d[j])
  }

  lemma FirstOccurrenceOrderSnoc<T>(init: seq<T>, x: T, d: seq<T>, r: seq<T>)
    requires FirstOccurrenceOrder(init, d)
    requires r == d || (x !in init && r == d + [x])
    ensures FirstOccurrenceOrder(init + [x], r)
  {
    var s := init + [x];
    forall y | y in init
      ensures FirstIndex(s, y) == FirstIndex(init, y)
    {
      FirstIndexSnoc(init, x, y);
    }
    forall i, j | 0 <= i < j < |r|
      ensures FirstIndex(s, r[i]) < FirstIndex(s, r[j])
    {
      assert r[i] == d[i] && r[i] in init;
      if j < |d| {
        assert r[j] == d[j] && r[j] in init;
      } else {
        assert r[j] == x && FirstIndex(s, x) == |init|;
      }
    }
  }

  /** `dict.fromkeys` keeps the elements in the order of their first occurrence in `s`. */
  lemma {:induction false} DedupFirstOccurrence<T>(s: seq<T>)
    ensures FirstOccurrenceOrder(s, Dedup(s))
  {
    if s != [] {
      var init, x := s[..|s| - 1], s[|s| - 1];
      DedupFirstOccurrence(init);
      assert s == init + [x];
      DedupSnoc(init, x);
      FirstOccurrenceOrderSnoc(init, x, Dedup(init), Dedup(s));
    }
  }

  lemma DedupSnoc<T>(s: seq<T>, x: T)
    ensures Dedup(s + [x]) == if x in Dedup(s) then Dedup(s) else Dedup(s) + [x]
  {
    assert (s + [x])[..|s|] == s;
  }

  lemma {:induction false} DedupDistinct<T>(s: seq<T>)
    requires NoDuplicates(s)
    ensures Dedup(s) == s
  {
    if s != [] {
      var init, last := s[..|s| - 1], s[|s| - 1];
      DistinctInit(s);
      DedupDistinct(init);
      assert s == init + [last];
    }
  }

  /** Dropping the last element of a duplicate-free sequence leaves one without it. */
  lemma DistinctInit<T>(s: seq<T>)
    requires s != [] && NoDuplicates(s)
    ensures NoDuplicates(s[..|s| - 1]) && s[|s| - 1] !in s[..|s| - 1]
  {
    var init, last := s[..|s| - 1], s[|s| - 1];
    forall i, j | 0 <= i < j < |init| ensures init[i] != init[j] {
      assert init[i] == s[i] && init[j] == s[j];
    }
    forall i | 0 <= i < |init| ensures init[i] != last {
      assert init[i] == s[i];
    }
  }

  /** Appending to the deduplicated tail of `p + Dedup(w)`, where `x` is not in `p`. */
  lemma DedupSnocAfter<T>(p: seq<T>, w: seq<T>, x: T)
    requires x !in p
    ensures p + Dedup(w + [x]) == if x in p + Dedup(w) then p + Dedup(w) else p + Dedup(w) + [x]
  {
    DedupSnoc(w, x);
    AppendAssoc(p, Dedup(w), [x]);
  }

  /** `s[:n]`. */
  function Take<T>(s: seq<T>, n: nat): (r: seq<T>)
    ensures |r| == if |s| < n then |s| else n
    ensures r == s[..|r|]
  {
    if |s| <= n then s else s[..n]
  }

  function DigitChar(d: nat): char
    requires d < 10
  {
    ('0' as int + d) as char
  }

  /** `str(n)` for a natural number: its decimal digits, no leading zero. */
  function NatToString(n: nat): (r: string)
    ensures |r| >= 1 && AllAsciiDigits(r)
    ensures |r| > 1 ==> r[0] != '0'
  {
    if n < 10 then [DigitChar(n)] else NatToString(n / 10) + [DigitChar(n % 10)]
  }

  /** `str(i)`. */
  function IntToString(i: int): (r: string)
    ensures |r| >= 1
    ensures forall k :: 0 <= k < |r| ==> IsAsciiDigit(r[k]) || (k == 0 && r[k] == '-')
  {
    if i < 0 then "-" + NatToString(-i) else NatToString(i)
  }

  function DigitsValue(s: string): nat
    requires AllAsciiDigits(s)
  {
    if s == [] then 0 else DigitsValue(s[..|s| - 1]) * 10 + (s[|s| - 1] as int - '0' as int)
  }

  /** `int(s)` on text that is already stripped: an optional sign and ASCII digits. */
  function ParseInt(s: string): (r: Option<int>)
    ensures r.Some? ==> |s| >= 1
  {
    if |s| == 0 then None
    else if s[0] == '-' || s[0] == '+' then
      if |s| > 1 && AllAsciiDigits(s[1..]) then
        var v: int := DigitsValue(s[1..]);
        Some(if s[0] == '-' then -v else v)
      else None
    else if AllAsciiDigits(s) then Some(DigitsValue(s))
    else None
  }

  lemma {:induction false} NatToStringValue(n: nat)
    ensures DigitsValue(NatToString(n)) == n
  {
    if n >= 10 {
      NatToStringValue(n / 10);
      var s := NatToString(n);
      assert s[..|s| - 1] == NatToString(n / 10);
    }
  }

  /** `int(str(i)) == i`. */
  lemma IntToStringRoundTrip(i: int)
    ensures ParseInt(IntToString(i)) == Some(i)
  {
    if i < 0 {
      NatToStringValue(-i);
      assert IntToString(i)[1..] == NatToString(-i);
    } else {
      NatToStringValue(i);
    }
  }
}
