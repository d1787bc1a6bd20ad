/**
 * `makeSlug`: lower-case the title, trim it, turn whitespace runs into `-`,
 * turn runs of characters that are not letters, numbers or `-` into `-`,
 * squeeze runs of `-`, drop one leading and one trailing `-`, fall back to
 * "course" when nothing is left, and append `-` and the clock reading.
 */
module Slug {

  /**
   * The Unicode tables the regular expressions consult: `\p{L}`, `\p{N}`,
   * `\s` (also what `trim` removes) and `toLowerCase`. They are a parameter
   * of the model, not interpreted by it.
   */
  datatype CharTables = CharTables(
    isLetter: char -> bool,
    isNumber: char -> bool,
    isSpace: char -> bool,
    lower: string -> string)
  {
    /** What Unicode guarantees and the characterisation below needs. */
    ghost predicate Consistent() {
      && !isLetter('-') && !isNumber('-')
      && forall c :: isSpace(c) ==> !isLetter(c) && !isNumber(c)
    }

    /** A letter or a number: a character that survives the cleaning. */
    predicate IsWordChar(c: char) {
      isLetter(c) || isNumber(c)
    }
  }

  // ---------------------------------------------------------------------
  // The rewrite steps

  /** Every maximal run of characters satisfying `p` becomes one `-`. */
  function CollapseRuns(s: string, p: char -> bool): (r: string)
    ensures s == [] <==> r == []
    ensures s != [] ==> r[0] == (if p(s[0]) then '-' else s[0])
  {
    if s == [] then []
    else if p(s[0]) && |s| > 1 && p(s[1]) then CollapseRuns(s[1..], p)
    else if p(s[0]) then ['-'] + CollapseRuns(s[1..], p)
    else [s[0]] + CollapseRuns(s[1..], p)
  }

  /** The leading whitespace removed by `trim`: a suffix of `s` that starts with no space, after only spaces. */
  function TrimStart(t: CharTables, s: string): (r: string)
    ensures |r| <= |s| && r == s[|s| - |r|..]
    ensures forall i :: 0 <= i < |s| - |r| ==> t.isSpace(s[i])
    ensures r != [] ==> !t.isSpace(r[0])
  {
    if s != [] && t.isSpace(s[0]) then
      var r := TrimStart(t, s[1..]);
      assert s[1..][|s| - 1 - |r|..] == s[|s| - |r|..];
      r
    else s
  }

  /** The trailing whitespace removed by `trim`: a prefix of `s` that ends with no space, followed by only spaces. */
  function TrimEnd(t: CharTables, s: string): (r: string)
    ensures |r| <= |s| && r == s[..|r|]
    ensures forall i :: |r| <= i < |s| ==> t.isSpace(s[i])
    ensures r != [] ==> !t.isSpace(r[|r| - 1])
  {
    if s != [] && t.isSpace(s[|s| - 1]) then
      var r := TrimEnd(t, s[..|s| - 1]);
      assert s[..|s| - 1][..|r|] == s[..|r|];
      r
    else s
  }

  /** One leading and one trailing hyphen removed. */
  function StripHyphenEdges(s: string): string {
    var s' := if s != [] && s[0] == '-' then s[1..] else s;
    if s' != [] && s'[|s'| - 1] == '-' then s'[..|s'| - 1] else s'
  }

  /**
   * What the edge stripping removes: the result is the slice of `s` after
   * its first character exactly when that is `-` (`k` of them), and it stops
   * one short of the end exactly when a `-` is left there.
   */
  lemma StripRemovesEdgeHyphens(s: string)
    ensures var r := StripHyphenEdges(s);
      var k := if s != [] && s[0] == '-' then 1 else 0;
      && k + |r| <= |s| <= k + |r| + 1
      && r == s[k..k + |r|]
      && (k + |r| < |s| <==> |s| > k && s[|s| - 1] == '-')
  {
  }

  function NotKept(t: CharTables): char -> bool {
    c => !(t.isLetter(c) || t.isNumber(c) || c == '-')
  }

  function IsHyphen(c: char): bool { c == '-' }

  /** The chain of rewrites that yields `cleaned`. */
  function Cleaned(t: CharTables, title: string): string {
    var trimmed := TrimEnd(t, TrimStart(t, t.lower(title)));
    var spaced := CollapseRuns(trimmed, t.isSpace);
    var kept := CollapseRuns(spaced, NotKept(t));
    StripHyphenEdges(CollapseRuns(kept, IsHyphen))
  }

  /** A non-empty run of decimal digits. */
  predicate IsDigits(s: string) {
    s != [] && forall i :: 0 <= i < |s| ==> '0' <= s[i] <= '9'
  }

  /** The number a run of decimal digits denotes, most significant first. */
  function DigitsValue(s: string): nat
    requires forall i :: 0 <= i < |s| ==> '0' <= s[i] <= '9'
  {
    if s == [] then 0
    else 10 * DigitsValue(s[..|s| - 1]) + (s[|s| - 1] as int - '0' as int)
  }

  /**
   * The text template interpolation prints for a non-negative number: its
   * decimal digits, without leading zeros, denoting that number.
   */
  function Decimal(n: nat): (r: string)
    ensures IsDigits(r)
    ensures |r| > 1 ==> r[0] != '0'
    ensures DigitsValue(r) == n
  {
    var digit := ('0' as int + n % 10) as char;
    if n < 10 then [digit]
    else
      var prefix := Decimal(n / 10);
      assert (prefix + [digit])[..|prefix|] == prefix;
      prefix + [digit]
  }

  /** A number interpolated into a template string: a `-` for a negative one, then the digits of its magnitude. */
  function IntText(n: int): (r: string)
    ensures n >= 0 ==> IsDigits(r) && DigitsValue(r) == n
    ensures n < 0 ==> |r| > 1 && r[0] == '-' && IsDigits(r[1..]) && DigitsValue(r[1..]) == -n
  {
    if n < 0 then "-" + Decimal(-n) else Decimal(n)
  }

  /**
   * `makeSlug` with `now` the `Date.now()` reading: a non-empty base, which
   * is "course" or a slug-shaped cleaned title, then `-`, then the clock text;
   * under Unicode's facts the base is the title's letter and number runs
   * joined by `-`.
   */
  function MakeSlug(t: CharTables, title: string, now: int): (slug: string)
    ensures exists base ::
      && base != []
      && (base == "course" || SlugShaped(t, base))
      && slug == base + "-" + IntText(now)
    ensures t.Consistent() ==>
      var joined := JoinHyphen(Runs(t, t.lower(title)));
      slug == (if joined == [] then "course" else joined) + "-" + IntText(now)
  {
    CleanedShape(t, title);
    assert t.Consistent() ==> Cleaned(t, title) == JoinHyphen(Runs(t, t.lower(title))) by {
      if t.Consistent() { CleanedIsJoinedRuns(t, title); }
    }
    var cleaned := Cleaned(t, title);
    var base := if |cleaned| > 0 then cleaned else "course";
    base + "-" + IntText(now)
  }

  // ---------------------------------------------------------------------
  // The shape of the cleaned part

  /** Only letters, numbers and `-`; no two adjacent `-`; no `-` at either end. */
  ghost predicate SlugShaped(t: CharTables, s: string) {
    && (forall i :: 0 <= i < |s| ==> t.IsWordChar(s[i]) || s[i] == '-')
    && (forall i :: 0 <= i < |s| - 1 ==> !(s[i] == '-' && s[i + 1] == '-'))
    && (s != [] ==> s[0] != '-' && s[|s| - 1] != '-')
  }

  ghost predicate OnlyKeptChars(t: CharTables, s: string) {
    forall i :: 0 <= i < |s| ==> t.IsWordChar(s[i]) || s[i] == '-'
  }

  ghost predicate NoDoubleHyphen(s: string) {
    forall i :: 0 <= i < |s| - 1 ==> !(s[i] == '-' && s[i + 1] == '-')
  }

  /** Every character `CollapseRuns` emits is `-` or an input character that fails `p`. */
  lemma {:induction false} CollapseRunsChars(s: string, p: char -> bool)
    ensures forall i :: 0 <= i < |CollapseRuns(s, p)| ==>
      CollapseRuns(s, p)[i] == '-' || (CollapseRuns(s, p)[i] in s && !p(CollapseRuns(s, p)[i]))
  {
    if s != [] {
      CollapseRunsChars(s[1..], p);
      var rest := CollapseRuns(s[1..], p);
      forall i | 0 <= i < |rest|
        ensures rest[i] == '-' || (rest[i] in s && !p(rest[i]))
      {
        if rest[i] != '-' {
          assert rest[i] in s[1..];
        }
      }
    }
  }

  /** After the cleaning-out step only letters, numbers and `-` are left. */
  lemma KeptCharsOnly(t: CharTables, s: string)
    ensures OnlyKeptChars(t, CollapseRuns(s, NotKept(t)))
  {
    CollapseRunsChars(s, NotKept(t));
  }

  /** Squeezing hyphens keeps the character set. */
  lemma {:induction false} SqueezeKeepsChars(t: CharTables, s: string)
    requires OnlyKeptChars(t, s)
    ensures OnlyKeptChars(t, CollapseRuns(s, IsHyphen))
  {
    CollapseRunsChars(s, IsHyphen);
    var r := CollapseRuns(s, IsHyphen);
    forall i | 0 <= i < |r| ensures t.IsWordChar(r[i]) || r[i] == '-' {
      if r[i] != '-' {
        var j :| 0 <= j < |s| && s[j] == r[i];
      }
    }
  }

  /** Squeezing hyphens leaves no two adjacent. */
  lemma {:induction false} SqueezeNoDouble(s: string)
    ensures NoDoubleHyphen(CollapseRuns(s, IsHyphen))
  {
    if s != [] {
      SqueezeNoDouble(s[1..]);
    }
  }

  /** Removing one hyphen at each end of a squeezed string leaves none at either end. */
  lemma StripShape(t: CharTables, s: string)
    requires OnlyKeptChars(t, s) && NoDoubleHyphen(s)
    ensures SlugShaped(t, StripHyphenEdges(s))
  {
    var s' := if s != [] && s[0] == '-' then s[1..] else s;
    assert OnlyKeptChars(t, s') && NoDoubleHyphen(s');
    assert s' != [] ==> s'[0] != '-';
    var r := StripHyphenEdges(s);
    assert r == if s' != [] && s'[|s'| - 1] == '-' then s'[..|s'| - 1] else s';
  }

  /** The cleaned part has the shape of a slug. */
  lemma CleanedShape(t: CharTables, title: string)
    ensures SlugShaped(t, Cleaned(t, title))
  {
    var trimmed := TrimEnd(t, TrimStart(t, t.lower(title)));
    var spaced := CollapseRuns(trimmed, t.isSpace);
    var kept := CollapseRuns(spaced, NotKept(t));
    KeptCharsOnly(t, spaced);
    SqueezeKeepsChars(t, kept);
    SqueezeNoDouble(kept);
    StripShape(t, CollapseRuns(kept, IsHyphen));
  }

  // ---------------------------------------------------------------------
  // The characterisation: the word runs of the lower-cased title, joined by `-`

  /**
   * A left-to-right scan that emits the word characters of `s` and one `-`
   * between words: `pending` records that a separator was seen since the last word
   * character, `started` that some word character was already emitted.
   */
  function JoinWords(t: CharTables, s: string, pending: bool, started: bool): string {
    if s == [] then []
    else if t.IsWordChar(s[0]) then
      (if pending && started then "-" else "") + [s[0]] + JoinWords(t, s[1..], false, true)
    else JoinWords(t, s[1..], true, started)
  }

  /** The scan from its initial state. */
  function Words(t: CharTables, s: string): string {
    JoinWords(t, s, false, false)
  }

  /** Collapsing a run of separators into one `-` does not change the words. */
  lemma {:induction false} CollapseKeepsWords(t: CharTables, s: string, p: char -> bool, pending: bool, started: bool)
    requires !t.IsWordChar('-')
    requires forall c :: p(c) ==> !t.IsWordChar(c)
    ensures JoinWords(t, CollapseRuns(s, p), pending, started) == JoinWords(t, s, pending, started)
  {
    if s == [] {
    } else if p(s[0]) && |s| > 1 && p(s[1]) {
      CollapseKeepsWords(t, s[1..], p, pending, started);
      calc {
        JoinWords(t, CollapseRuns(s, p), pending, started);
        JoinWords(t, CollapseRuns(s[1..], p), pending, started);
        JoinWords(t, s[1..], pending, started);
        { assert s[1..][1..] == s[2..]; }
        JoinWords(t, s[2..], true, started);
        JoinWords(t, s[1..], true, started);
        JoinWords(t, s, pending, started);
      }
    } else if p(s[0]) {
      CollapseKeepsWords(t, s[1..], p, true, started);
      assert (['-'] + CollapseRuns(s[1..], p))[1..] == CollapseRuns(s[1..], p);
    } else if t.IsWordChar(s[0]) {
      CollapseKeepsWords(t, s[1..], p, false, true);
      assert ([s[0]] + CollapseRuns(s[1..], p))[1..] == CollapseRuns(s[1..], p);
    } else {
      CollapseKeepsWords(t, s[1..], p, true, started);
      assert ([s[0]] + CollapseRuns(s[1..], p))[1..] == CollapseRuns(s[1..], p);
    }
  }

  /** A separator appended at the end does not change the words. */
  lemma {:induction false} TrailingSeparator(t: CharTables, s: string, c: char, pending: bool, started: bool)
    requires !t.IsWordChar(c)
    ensures JoinWords(t, s + [c], pending, started) == JoinWords(t, s, pending, started)
  {
    if s != [] {
      assert (s + [c])[1..] == s[1..] + [c];
      if t.IsWordChar(s[0]) {
        TrailingSeparator(t, s[1..], c, false, true);
      } else {
        TrailingSeparator(t, s[1..], c, true, started);
      }
    }
  }

  lemma {:induction false} TrimStartKeepsWords(t: CharTables, s: string, started: bool)
    requires forall c :: t.isSpace(c) ==> !t.IsWordChar(c)
    ensures JoinWords(t, TrimStart(t, s), true, started) == JoinWords(t, s, true, started)
  {
    if s != [] && t.isSpace(s[0]) {
      TrimStartKeepsWords(t, s[1..], started);
    }
  }

  lemma {:induction false} TrimEndKeepsWords(t: CharTables, s: string, pending: bool, started: bool)
    requires forall c :: t.isSpace(c) ==> !t.IsWordChar(c)
    ensures JoinWords(t, TrimEnd(t, s), pending, started) == JoinWords(t, s, pending, started)
  {
    if s != [] && t.isSpace(s[|s| - 1]) {
      var init := s[..|s| - 1];
      TrimEndKeepsWords(t, init, pending, started);
      assert init + [s[|s| - 1]] == s;
      TrailingSeparator(t, init, s[|s| - 1], pending, started);
    }
  }

  /** Leading spaces are separators: with nothing emitted yet they change nothing. */
  lemma {:induction false} TrimKeepsWords(t: CharTables, s: string)
    requires forall c :: t.isSpace(c) ==> !t.IsWordChar(c)
    ensures Words(t, TrimEnd(t, TrimStart(t, s))) == Words(t, s)
  {
    TrimEndKeepsWords(t, TrimStart(t, s), false, false);
    PendingIrrelevantBeforeStart(t, TrimStart(t, s));
    TrimStartKeepsWords(t, s, false);
    PendingIrrelevantBeforeStart(t, s);
  }

  /** Before the first word, a pending separator emits nothing. */
  lemma {:induction false} PendingIrrelevantBeforeStart(t: CharTables, s: string)
    ensures JoinWords(t, s, true, false) == JoinWords(t, s, false, false)
  {
    if s != [] && !t.IsWordChar(s[0]) {
    }
  }

  lemma StripKeepsWords(t: CharTables, s: string)
    requires !t.IsWordChar('-')
    ensures Words(t, StripHyphenEdges(s)) == Words(t, s)
  {
    var s' := if s != [] && s[0] == '-' then s[1..] else s;
    assert Words(t, s') == Words(t, s) by {
      if s != [] && s[0] == '-' {
        PendingIrrelevantBeforeStart(t, s');
      }
    }
    if s' != [] && s'[|s'| - 1] == '-' {
      assert s'[..|s'| - 1] + ['-'] == s';
      TrailingSeparator(t, s'[..|s'| - 1], '-', false, false);
    }
  }

  /** A string already shaped as a slug is its own joined words. */
  lemma {:induction false} ShapedIsOwnWords(t: CharTables, s: string, started: bool)
    requires !t.IsWordChar('-')
    requires OnlyKeptChars(t, s) && NoDoubleHyphen(s) && (s != [] ==> s[|s| - 1] != '-')
    requires s != [] && s[0] == '-' ==> started
    ensures JoinWords(t, s, false, started) == s
    decreases |s|
  {
    if s == [] {
    } else if t.IsWordChar(s[0]) {
      ShapedIsOwnWords(t, s[1..], true);
    } else {
      assert s[0] == '-' && |s| > 1 && s[1] != '-';
      assert t.IsWordChar(s[1]);
      ShapedIsOwnWords(t, s[2..], true);
      assert s[1..][1..] == s[2..];
      assert s == "-" + [s[1]] + s[2..];
    }
  }

  /** The run of word characters at the front of `s`. */
  function LeadingRun(t: CharTables, s: string): (w: string)
    ensures |w| <= |s| && w == s[..|w|]
    ensures s != [] && t.IsWordChar(s[0]) ==> |w| >= 1
    ensures forall i :: 0 <= i < |w| ==> t.IsWordChar(w[i])
    ensures |w| < |s| ==> !t.IsWordChar(s[|w|])
  {
    if s != [] && t.IsWordChar(s[0]) then [s[0]] + LeadingRun(t, s[1..]) else []
  }

  /** The maximal runs of letters and numbers in `s`, left to right. */
  function Runs(t: CharTables, s: string): (runs: seq<string>)
    ensures forall k :: 0 <= k < |runs| ==> runs[k] != []
    decreases |s|
  {
    if s == [] then []
    else if !t.IsWordChar(s[0]) then Runs(t, s[1..])
    else
      var w := LeadingRun(t, s);
      [w] + Runs(t, s[|w|..])
  }

  /** The runs joined by single `-`. */
  function JoinHyphen(runs: seq<string>): string {
    if runs == [] then []
    else if |runs| == 1 then runs[0]
    else runs[0] + "-" + JoinHyphen(runs[1..])
  }

  /** The scan emits the runs joined by `-`, preceded by `-` when a word was emitted and a separator is pending. */
  lemma {:induction false} ScanIsJoinedRuns(t: CharTables, s: string, pending: bool, started: bool)
    ensures JoinWords(t, s, pending, started)
      == (if started && Runs(t, s) != [] && (pending || !t.IsWordChar(s[0])) then "-" else "")
         + JoinHyphen(Runs(t, s))
    decreases |s|
  {
    if s == [] {
    } else if !t.IsWordChar(s[0]) {
      ScanIsJoinedRuns(t, s[1..], true, started);
    } else {
      var w := LeadingRun(t, s);
      var rest := Runs(t, s[|w|..]);
      assert Runs(t, s) == [w] + rest;
      ScanIsJoinedRuns(t, s[1..], false, true);
      if |s| > 1 && t.IsWordChar(s[1]) {
        assert LeadingRun(t, s[1..]) == w[1..];
        assert s[1..][|w| - 1..] == s[|w|..];
        assert Runs(t, s[1..]) == [w[1..]] + rest;
        assert [s[0]] + w[1..] == w;
        JoinCons(w[1..], rest);
        JoinCons(w, rest);
      } else {
        assert w == [s[0]];
        assert Runs(t, s[1..]) == rest;
        JoinCons(w, rest);
      }
    }
  }

  lemma JoinCons(w: string, rest: seq<string>)
    ensures JoinHyphen([w] + rest) == w + (if rest == [] then "" else "-" + JoinHyphen(rest))
  {
    if rest != [] {
      assert ([w] + rest)[1..] == rest;
    }
  }

  /** No step of the rewrite chain changes the words of the lower-cased title. */
  lemma CleanedKeepsWords(t: CharTables, title: string)
    requires t.Consistent()
    ensures Words(t, Cleaned(t, title)) == Words(t, t.lower(title))
  {
    var lowered := t.lower(title);
    var trimmed := TrimEnd(t, TrimStart(t, lowered));
    var spaced := CollapseRuns(trimmed, t.isSpace);
    var kept := CollapseRuns(spaced, NotKept(t));
    var squeezed := CollapseRuns(kept, IsHyphen);
    assert Cleaned(t, title) == StripHyphenEdges(squeezed);
    assert Words(t, trimmed) == Words(t, lowered) by { TrimKeepsWords(t, lowered); }
    assert Words(t, spaced) == Words(t, trimmed) by {
      CollapseKeepsWords(t, trimmed, t.isSpace, false, false);
    }
    assert Words(t, kept) == Words(t, spaced) by {
      CollapseKeepsWords(t, spaced, NotKept(t), false, false);
    }
    assert Words(t, squeezed) == Words(t, kept) by {
      CollapseKeepsWords(t, kept, IsHyphen, false, false);
    }
    StripKeepsWords(t, squeezed);
  }

  /**
   * With consistent tables the cleaned part is exactly the maximal
   * letter/number runs of the lower-cased title joined by single `-`.
   */
  lemma CleanedIsJoinedRuns(t: CharTables, title: string)
    requires t.Consistent()
    ensures Cleaned(t, title) == JoinHyphen(Runs(t, t.lower(title)))
  {
    CleanedKeepsWords(t, title);
    CleanedShape(t, title);
    ShapedIsOwnWords(t, Cleaned(t, title), false);
    ScanIsJoinedRuns(t, t.lower(title), false, false);
  }

  /** Two slugs made from the same title at different clock readings differ. */
  lemma MakeSlugSeparatesClocks(t: CharTables, title: string, now: int, later: int)
    requires now != later
    ensures MakeSlug(t, title, now) != MakeSlug(t, title, later)
  {
    var cleaned := Cleaned(t, title);
    var base := if |cleaned| > 0 then cleaned else "course";
    var a, b := IntText(now), IntText(later);
    if base + "-" + a == base + "-" + b {
      assert a == (base + "-" + a)[|base| + 1..];
      assert b == (base + "-" + b)[|base| + 1..];
      IntTextInjective(now, later);
    }
  }

  /** Different numbers print differently. */
  lemma IntTextInjective(m: int, n: int)
    requires IntText(m) == IntText(n)
    ensures m == n
  {
  }
}
